/** The home page's corner texts: each of three texts is "typed" by its
    own interval, showing one more random glyph per tick and then the real
    text; a timeout set for the slowest text marks typing complete, after
    which a 100 ms interval glitches the fully typed texts and a 300 ms
    interval resets them. Timers become explicit events; the random
    numbers each tick draws become parameters. */
module HomePage {
  import opened Common

  const Glyphs: string := "\U{2055}\U{203B}\U{2299}\U{2218}\U{2200}91>-6"
  const Texts: seq<string> := ["MANAMONA", "INDONESIA", "2025"]
  const GlitchChance: real := 0.9

  predicate IsGlyph(c: char)
  {
    c in Glyphs
  }

  /** Text idx is typed one tick every 100 + 50 idx ms. */
  function Period(idx: nat): real
  {
    100.0 + idx as real * 50.0
  }

  /* ---------------- typing ---------------- */

  /** The frame shown after tick i (counting from 0): while i is inside the
      text, i + 1 glyphs picked by the draws; from then on the text. */
  function TypingFrame(text: string, i: nat, picks: seq<nat>): (out: string)
    requires i < |text| ==> |picks| == i + 1 && forall j :: 0 <= j < |picks| ==> picks[j] < |Glyphs|
    ensures i < |text| ==> |out| == i + 1 && forall j :: 0 <= j < |out| ==> IsGlyph(out[j])
    ensures i >= |text| ==> out == text
  {
    if i < |text| then seq(i + 1, j requires 0 <= j < i + 1 => Glyphs[picks[j]]) else text
  }

  /** None of the three texts is made only of glyphs. */
  lemma TextsNotGlyphs(idx: nat)
    requires idx < |Texts|
    ensures exists j :: 0 <= j < |Texts[idx]| && !IsGlyph(Texts[idx][j])
  {
    assert !IsGlyph(Texts[idx][0]);
  }

  /** A frame equals the real text exactly when typing is over, so the
      glitch effects, which compare against it, start on a text only once
      it is fully typed. */
  lemma FrameIsTextWhenDone(idx: nat, i: nat, picks: seq<nat>)
    requires idx < |Texts|
    requires i < |Texts[idx]| ==> |picks| == i + 1 && forall j :: 0 <= j < |picks| ==> picks[j] < |Glyphs|
    ensures TypingFrame(Texts[idx], i, picks) == Texts[idx] <==> i >= |Texts[idx]|
  {
    var t := Texts[idx];
    if i < |t| {
      TextsNotGlyphs(idx);
      var f := TypingFrame(t, i, picks);
      var j :| 0 <= j < |t| && !IsGlyph(t[j]);
      if j < |f| {
        assert f[j] != t[j];
      } else {
        assert |f| != |t|;
      }
    }
  }

  /** `(len + 1)·period`: the time, counted from mount, of the tick that
      clears text idx's interval. An updater that reads the counter before
      `i++` shows the real text at this tick; one that React defers until
      after `i++` (every update but the first) shows it a period earlier. */
  function Finish(texts: seq<string>, idx: nat): real
    requires idx < |texts|
  {
    (|texts[idx]| + 1) as real * Period(idx)
  }

  /** `maxTypingTime`: the largest finish time. */
  function Deadline(texts: seq<string>): real
    requires |texts| > 0
  {
    if |texts| == 1 then Finish(texts, 0)
    else Max(Deadline(texts[..|texts| - 1]), Finish(texts, |texts| - 1))
  }

  /** No text finishes after the deadline. */
  lemma {:induction false} DeadlineBoundsFinish(texts: seq<string>, idx: nat)
    requires 0 <= idx < |texts|
    ensures Finish(texts, idx) <= Deadline(texts)
  {
    var n := |texts| - 1;
    if idx < n {
      var front := texts[..n];
      DeadlineBoundsFinish(front, idx);
      assert front[idx] == texts[idx];
      assert Finish(front, idx) == Finish(texts, idx);
      assert Deadline(texts) == Max(Deadline(front), Finish(texts, n));
    } else if n > 0 {
      assert Deadline(texts) == Max(Deadline(texts[..n]), Finish(texts, n));
    }
  }

  /** The deadline is the finish time of some text. */
  lemma {:induction false} DeadlineIsAFinish(texts: seq<string>) returns (idx: nat)
    requires |texts| > 0
    ensures idx < |texts| && Finish(texts, idx) == Deadline(texts)
  {
    var n := |texts| - 1;
    if n == 0 || Deadline(texts) == Finish(texts, n) {
      idx := n;
    } else {
      var front := texts[..n];
      idx := DeadlineIsAFinish(front);
      assert front[idx] == texts[idx];
    }
  }

  /** For the page's texts typing completes 1.5 s after mount, when the
      nine-letter second text, typed every 150 ms, finishes. */
  lemma HomeDeadline()
    ensures Deadline(Texts) == 1500.0 == Finish(Texts, 1)
  {
    assert Deadline(Texts[..1]) == 900.0;
    assert Texts[..2][..1] == Texts[..1];
    assert Deadline(Texts[..2]) == 1500.0;
  }

  /* ---------------- glitching ---------------- */

  /** The two draws a glitch takes per character: whether to swap it, and
      which glyph. */
  datatype Pick = Pick(roll: real, glyph: nat)

  predicate ValidPicks(picks: seq<Pick>)
  {
    forall j :: 0 <= j < |picks| ==> 0.0 <= picks[j].roll < 1.0 && picks[j].glyph < |Glyphs|
  }

  /** Each character is the text's or a glyph. */
  predicate IsGlitchOf(s: string, text: string)
  {
    |s| == |text| && forall j :: 0 <= j < |s| ==> s[j] == text[j] || IsGlyph(s[j])
  }

  /** One glitch frame: a character is swapped when its roll exceeds
      0.9. */
  function Glitch(text: string, picks: seq<Pick>): (out: string)
    requires |picks| == |text| && ValidPicks(picks)
    ensures IsGlitchOf(out, text)
    ensures forall j :: 0 <= j < |text| ==> (picks[j].roll <= GlitchChance ==> out[j] == text[j])
    ensures forall j :: 0 <= j < |text| ==> (picks[j].roll > GlitchChance ==> out[j] == Glyphs[picks[j].glyph])
  {
    seq(|text|, j requires 0 <= j < |text| => if picks[j].roll > GlitchChance then Glyphs[picks[j].glyph] else text[j])
  }

  /** What a corner may show: nothing, a row of glyphs no longer than the
      text, or the text with some characters glitched. */
  predicate Plausible(s: string, text: string)
  {
    s == "" || (|s| <= |text| && forall j :: 0 <= j < |s| ==> IsGlyph(s[j])) || IsGlitchOf(s, text)
  }

  /** `glitchTexts[idx] || typed[idx]` */
  function Shown(glitch: string, typed: string): (s: string)
    ensures glitch != "" ==> s == glitch
    ensures glitch == "" ==> s == typed
  {
    if glitch != "" then glitch else typed
  }

  /** The counter `i` as a typing updater reads it: as it was when the
      tick queued the update, or after the tick's `i++` when React runs the
      updater during the next render. */
  function Seen(i: nat, deferred: bool): nat
  {
    if deferred then i + 1 else i
  }

  /** The page's text state and timers. */
  class Home {
    var typed: seq<string>
    /** Each typing interval's tick counter `i`. */
    var counters: seq<nat>
    /** Whether each typing interval is still set. */
    var typing: seq<bool>
    var complete: bool
    var completeDue: Option<real>
    var glitch: seq<string>
    var mounted: bool

    ghost predicate Valid()
      reads this
    {
      |typed| == |counters| == |typing| == |glitch| == |Texts| &&
      (forall idx :: 0 <= idx < |Texts| ==>
        counters[idx] <= |Texts[idx]| + 1 &&
        (typing[idx] <==> counters[idx] <= |Texts[idx]|) &&
        (counters[idx] == 0 ==> typed[idx] == "") &&
        (!typing[idx] ==> typed[idx] == Texts[idx]) &&
        Plausible(typed[idx], Texts[idx]) && Plausible(glitch[idx], Texts[idx])) &&
      (complete ==> completeDue.None?)
    }

    /** Mount at `now`: three typing intervals and the completion
      timeout. */
    constructor (now: real)
      ensures Valid()
      ensures typed == ["", "", ""] && glitch == ["", "", ""] && counters == [0, 0, 0]
      ensures typing == [true, true, true] && !complete && completeDue == Some(now + Deadline(Texts))
      ensures mounted
    {
      typed, glitch, counters := ["", "", ""], ["", "", ""], [0, 0, 0];
      typing, complete, completeDue := [true, true, true], false, Some(now + Deadline(Texts));
      mounted := true;
    }

    /** A tick of text idx's typing interval. The updater passed to
      `setTyped` closes over the mutable counter `i`, and the tick runs
      `i++` right after queueing it. React runs the updater at once only
      while no update is pending (in practice the first one), and
      otherwise during the next render, after `i++`. `deferred` says which
      happened: the frame is computed from the counter as the updater
      reads it. Then the counter advances and the interval is cleared
      once it passes the text's length. */
    method TypeTick(idx: nat, deferred: bool, picks: seq<nat>)
      requires Valid() && idx < |Texts| && typing[idx]
      requires Seen(counters[idx], deferred) < |Texts[idx]| ==>
        |picks| == Seen(counters[idx], deferred) + 1 && forall j :: 0 <= j < |picks| ==> picks[j] < |Glyphs|
      modifies this`typed, this`counters, this`typing
      ensures Valid()
      ensures typed == old(typed)[idx := TypingFrame(Texts[idx], Seen(old(counters[idx]), deferred), picks)]
      ensures counters == old(counters)[idx := old(counters[idx]) + 1]
      ensures typing == old(typing)[idx := counters[idx] <= |Texts[idx]|]
    {
      var i := counters[idx];
      typed := typed[idx := TypingFrame(Texts[idx], Seen(i, deferred), picks)];
      counters := counters[idx := i + 1];
      typing := typing[idx := i + 1 <= |Texts[idx]|];
    }

    /** The completion timeout fires. */
    method CompleteTimeout()
      requires Valid() && completeDue.Some?
      modifies this`complete, this`completeDue
      ensures Valid() && complete && completeDue.None?
    {
      complete, completeDue := true, None;
    }

    /** A tick of the 100 ms glitch interval (set once typing is complete):
      each fully typed text gets a fresh glitch frame, every other corner
      mirrors its typed frame. */
    method GlitchTick(picks: seq<seq<Pick>>)
      requires Valid() && complete && mounted
      requires |picks| == |Texts|
      requires forall idx :: 0 <= idx < |Texts| ==> |picks[idx]| == |Texts[idx]| && ValidPicks(picks[idx])
      modifies this`glitch
      ensures Valid()
      ensures forall idx :: 0 <= idx < |Texts| ==>
        glitch[idx] == (if typed[idx] == Texts[idx] then Glitch(Texts[idx], picks[idx]) else typed[idx])
    {
      var updated := glitch;
      var idx := 0;
      while idx < |Texts|
        invariant 0 <= idx <= |Texts| && |updated| == |Texts|
        invariant forall j :: 0 <= j < idx ==>
          updated[j] == (if typed[j] == Texts[j] then Glitch(Texts[j], picks[j]) else typed[j])
        invariant forall j :: 0 <= j < |Texts| ==> Plausible(updated[j], Texts[j])
      {
        if typed[idx] == Texts[idx] {
          updated := updated[idx := Glitch(Texts[idx], picks[idx])];
        } else {
          updated := updated[idx := typed[idx]];
        }
        idx := idx + 1;
      }
      glitch := updated;
    }

    /** A tick of the 300 ms reset interval: every fully typed text's
      corner shows the text again; the others are left alone. */
    method ResetTick()
      requires Valid() && complete && mounted
      modifies this`glitch
      ensures Valid()
      ensures forall idx :: 0 <= idx < |Texts| ==>
        glitch[idx] == (if typed[idx] == Texts[idx] then Texts[idx] else old(glitch[idx]))
      ensures forall idx :: 0 <= idx < |Texts| && typed[idx] == Texts[idx] ==> Shown(glitch[idx], typed[idx]) == Texts[idx]
    {
      var updated := glitch;
      var idx := 0;
      while idx < |Texts|
        invariant 0 <= idx <= |Texts| && |updated| == |Texts|
        invariant forall j :: 0 <= j < |Texts| ==>
          updated[j] == (if j < idx && typed[j] == Texts[j] then Texts[j] else glitch[j])
      {
        if typed[idx] == Texts[idx] {
          updated := updated[idx := Texts[idx]];
        }
        idx := idx + 1;
      }
      assert forall j :: 0 <= j < |Texts| ==> IsGlitchOf(Texts[j], Texts[j]);
      glitch := updated;
    }

    /** Unmount: the completion timeout and the glitch and reset intervals
      are cleared; the typing intervals are not. */
    method Unmount()
      requires Valid()
      modifies this`completeDue, this`mounted
      ensures Valid() && completeDue.None? && !mounted
    {
      completeDue, mounted := None, false;
    }
  }

  /** "MANAMONA" after two ticks: the first update runs at once and shows
      one glyph; the second is deferred past `i++` and shows three glyphs,
      one more than the tick count, so the real text appears on the eighth
      tick (800 ms), a period before `Finish` (900 ms). */
  method DeferredTypingRunsAhead() returns (second: string, eighth: string)
    ensures |second| == 3 && eighth == Texts[0]
  {
    var h := new Home(0.0);
    h.TypeTick(0, false, [0]);
    h.TypeTick(0, true, [0, 1, 2]);
    second := h.typed[0];
    h.TypeTick(0, true, [0, 1, 2, 3]);
    h.TypeTick(0, true, [0, 1, 2, 3, 4]);
    h.TypeTick(0, true, [0, 1, 2, 3, 4, 5]);
    h.TypeTick(0, true, [0, 1, 2, 3, 4, 5, 6]);
    h.TypeTick(0, true, [0, 1, 2, 3, 4, 5, 6, 7]);
    h.TypeTick(0, true, []);
    eighth := h.typed[0];
  }
}
