/** The fixed header: a city line and a coordinate line that are typed in
    once through a scramble, then shimmer idly with a few ASCII glyphs; a
    clock label and a sun/moon icon for Jakarta time; and a width lock.
    Timers are explicit events, Math.random draws are inputs, and the
    Intl-formatted time is an input string. */
module HeaderTop {
  import opened Common

  const Ascii: seq<char> := ['?', '\'', 'o', '∘', '∀', 'M', '1', '1', 'N']
  const City: string := "JAKARTA, IDN"
  const WidthPad: real := 0.0

  /* ---------------- time label and icon ---------------- */

  /** Day from 06:00 to 17:59 Jakarta time; `hour` is the parsed hour. */
  predicate IsDay(hour: int)
  {
    6 <= hour < 18
  }

  /** Day and night each take half of the clock: an hour and the hour
      twelve later are never both day or both night. */
  lemma {:induction false} HalfDayApart(hour: int)
    requires 0 <= hour < 24
    ensures IsDay(hour) != IsDay((hour + 12) % 24)
  {
    if hour < 12 {
      assert (hour + 12) % 24 == hour + 12;
    } else {
      assert (hour + 12) % 24 == hour - 12;
    }
  }

  /** The first index of c in s, or |s| when it does not occur. */
  function IndexOf(s: string, c: char): (i: nat)
    ensures i <= |s|
    ensures i < |s| ==> s[i] == c
    ensures forall k :: 0 <= k < i ==> s[k] != c
  {
    if |s| == 0 then 0
    else if s[0] == c then 0
    else 1 + IndexOf(s[1..], c)
  }

  /** `s.replace(".", ":")`: only the first dot becomes a colon. */
  function ReplaceFirstDot(s: string): (r: string)
    ensures |r| == |s|
    ensures forall k :: 0 <= k < |s| ==> r[k] == (if k == IndexOf(s, '.') then ':' else s[k])
  {
    if |s| == 0 then ""
    else if s[0] == '.' then [':'] + s[1..]
    else [s[0]] + ReplaceFirstDot(s[1..])
  }

  /** The clock label: the formatted "HH.MM" with its first dot turned
      into a colon, followed by " WIB". */
  function FormatTime(intlTime: string): (shown: string)
    ensures |shown| == |intlTime| + 4
    ensures shown[|intlTime|..] == " WIB"
    ensures forall k :: 0 <= k < |intlTime| && k != IndexOf(intlTime, '.') ==> shown[k] == intlTime[k]
    ensures IndexOf(intlTime, '.') < |intlTime| ==> shown[IndexOf(intlTime, '.')] == ':'
  {
    ReplaceFirstDot(intlTime) + " WIB"
  }

  /** The width of the two info lines: the wider of the two measured ghost
      rows (a missing one measures 0) plus the padding. */
  function LockedWidth(wCoord: Option<real>, wTop: Option<real>): (w: real)
    ensures wCoord.Some? ==> w >= wCoord.value + WidthPad
    ensures wTop.Some? ==> w >= wTop.value + WidthPad
    ensures w == WidthPad
         || (wCoord.Some? && w == wCoord.value + WidthPad)
         || (wTop.Some? && w == wTop.value + WidthPad)
  {
    var a := if wCoord.Some? then wCoord.value else 0.0;
    var b := if wTop.Some? then wTop.value else 0.0;
    Max(a, b) + WidthPad
  }

  /* ---------------- typing ---------------- */

  predicate IsGlyph(c: char)
  {
    c in Ascii
  }

  /** One scramble frame: characters before revealIndex are final, every
      other position shows the ASCII glyph its draw selects. */
  function ScrambleFrame(text: string, revealIndex: nat, draws: seq<nat>): (out: string)
    requires |draws| == |text|
    requires forall j :: 0 <= j < |draws| ==> draws[j] < |Ascii|
    ensures |out| == |text|
    ensures forall j :: 0 <= j < |text| ==> if j < revealIndex then out[j] == text[j] else IsGlyph(out[j])
  {
    seq(|text|, j requires 0 <= j < |text| => if j < revealIndex then text[j] else Ascii[draws[j]])
  }

  /** What the typed line may show: nothing yet, or a frame of the final
      text's length whose every character is final or a glyph. */
  ghost predicate Plausible(text: string, out: string)
  {
    out == "" || (|out| == |text| && forall j :: 0 <= j < |out| ==> out[j] == text[j] || IsGlyph(out[j]))
  }

  /** One `typeOnce` run: a scramble timer redraws the unrevealed part, a
      reveal timer fixes one more character per tick, and after the last
      one the final text is shown and `onDone` runs. */
  class TypeOnce {
    const text: string
    var revealIndex: nat
    var stopped: bool
    var started: bool
    var output: string
    /** How many times `onDone` has run. */
    var doneCount: nat
    var scrambleArmed: bool
    var revealArmed: bool

    ghost predicate Valid()
      reads this
    {
      && revealIndex <= |text| + 1
      && (!stopped ==> revealIndex <= |text|)
      && doneCount <= 1
      && (doneCount == 1 <==> revealIndex == |text| + 1)
      && (doneCount == 1 ==> stopped && output == text && !scrambleArmed && !revealArmed)
      && (!started ==> !scrambleArmed && !revealArmed && output == "" && revealIndex == 0)
      && Plausible(text, output)
    }

    constructor (text: string)
      ensures Valid()
      ensures this.text == text && revealIndex == 0 && !stopped && !started && output == "" && doneCount == 0
      ensures !scrambleArmed && !revealArmed
    {
      this.text := text;
      revealIndex, stopped, started, output, doneCount := 0, false, false, "", 0;
      scrambleArmed, revealArmed := false, false;
    }

    /** The scramble step: unless stopped, draw a frame and re-arm. */
    method Scramble(draws: seq<nat>)
      requires Valid() && started
      requires |draws| == |text| && forall j :: 0 <= j < |draws| ==> draws[j] < |Ascii|
      modifies this`output, this`scrambleArmed
      ensures Valid()
      ensures old(stopped) ==> output == old(output) && scrambleArmed == old(scrambleArmed)
      ensures !old(stopped) ==> output == ScrambleFrame(text, revealIndex, draws) && scrambleArmed
    {
      if stopped {
        return;
      }
      output := ScrambleFrame(text, revealIndex, draws);
      scrambleArmed := true;
    }

    /** Start (at once or after the start delay): scramble, then arm the
      first reveal. */
    method Start(draws: seq<nat>)
      requires Valid() && !started
      requires |draws| == |text| && forall j :: 0 <= j < |draws| ==> draws[j] < |Ascii|
      modifies this
      ensures Valid()
      ensures started && revealArmed
      ensures !stopped ==> output == ScrambleFrame(text, 0, draws) && scrambleArmed
      ensures revealIndex == old(revealIndex) && stopped == old(stopped) && doneCount == old(doneCount)
    {
      started := true;
      Scramble(draws);
      revealArmed := true;
    }

    /** The scramble timer fires. */
    method ScrambleTick(draws: seq<nat>)
      requires Valid() && scrambleArmed
      requires |draws| == |text| && forall j :: 0 <= j < |draws| ==> draws[j] < |Ascii|
      modifies this`output, this`scrambleArmed
      ensures Valid()
      ensures !old(stopped) ==> output == ScrambleFrame(text, revealIndex, draws) && scrambleArmed
      ensures old(stopped) ==> output == old(output) && !scrambleArmed
    {
      scrambleArmed := false;
      Scramble(draws);
    }

    /** The reveal timer fires: one more character is final. Past the end
      the run stops, the scramble timer is cleared, the final text is
      shown and `onDone` runs; otherwise the next reveal is armed. */
    method RevealTick()
      requires Valid() && revealArmed
      modifies this
      ensures Valid()
      ensures old(stopped) ==> revealIndex == old(revealIndex) && output == old(output) && doneCount == old(doneCount) && !revealArmed
      ensures !old(stopped) ==> revealIndex == old(revealIndex) + 1
      ensures !old(stopped) && revealIndex > |text| ==>
        stopped && output == text && doneCount == old(doneCount) + 1 && !scrambleArmed && !revealArmed
      ensures !old(stopped) && revealIndex <= |text| ==>
        !stopped && output == old(output) && doneCount == old(doneCount) && revealArmed
      ensures started == old(started)
    {
      revealArmed := false;
      if stopped {
        return;
      }
      revealIndex := revealIndex + 1;
      if revealIndex > |text| {
        stopped := true;
        scrambleArmed := false;
        output := text;
        doneCount := doneCount + 1;
        return;
      }
      revealArmed := true;
    }

    /** The returned canceller: stop and clear both timers. */
    method Cancel()
      requires Valid()
      modifies this`stopped, this`scrambleArmed, this`revealArmed
      ensures Valid()
      ensures stopped && !scrambleArmed && !revealArmed
    {
      stopped, scrambleArmed, revealArmed := true, false, false;
    }
  }

  /* ---------------- idle shimmer ---------------- */

  /** JavaScript's whitespace and line terminators, what `trim` removes. */
  predicate IsJsSpace(c: char)
  {
    || c == '\t' || c == '\n' || c == '\U{000B}' || c == '\U{000C}' || c == '\r' || c == ' '
    || c == '\U{00A0}' || c == '\U{1680}' || ('\U{2000}' <= c <= '\U{200A}')
    || c == '\U{2028}' || c == '\U{2029}' || c == '\U{202F}' || c == '\U{205F}'
    || c == '\U{3000}' || c == '\U{FEFF}'
  }

  /** The positions of the non-whitespace characters, in order. */
  function IdleIndices(text: string): (ix: seq<nat>)
    ensures forall k :: 0 <= k < |ix| ==> ix[k] < |text| && !IsJsSpace(text[ix[k]])
    ensures forall i :: 0 <= i < |text| && !IsJsSpace(text[i]) ==> i in ix
    ensures forall a, b :: 0 <= a < b < |ix| ==> ix[a] < ix[b]
  {
    IndicesFrom(text, 0)
  }

  function IndicesFrom(text: string, i: nat): (ix: seq<nat>)
    requires i <= |text|
    ensures forall k :: 0 <= k < |ix| ==> i <= ix[k] < |text| && !IsJsSpace(text[ix[k]])
    ensures forall p :: i <= p < |text| && !IsJsSpace(text[p]) ==> p in ix
    ensures forall a, b :: 0 <= a < b < |ix| ==> ix[a] < ix[b]
    decreases |text| - i
  {
    if i == |text| then []
    else if IsJsSpace(text[i]) then IndicesFrom(text, i + 1)
    else [i] + IndicesFrom(text, i + 1)
  }

  /** One random pick: which of the idle indices (`(Math.random() * n) | 0`)
      and which glyph. */
  datatype Pick = Pick(slot: nat, glyph: nat)

  /** The idle shimmer of one line: every 280 ms one or two non-blank
      positions show a random glyph, and 110 ms later the text is put
      back. */
  class Idle {
    const text: string
    const indices: seq<nat>
    var output: string
    /** Restore timeouts scheduled and not yet fired. */
    var pendingRestores: nat

    ghost predicate Valid()
      reads this
    {
      indices == IdleIndices(text) && |output| == |text|
    }

    constructor (text: string)
      ensures Valid()
      ensures this.text == text && output == text && pendingRestores == 0
    {
      this.text := text;
      indices := IdleIndices(text);
      output := text;
      pendingRestores := 0;
    }

    /** The interval fires. With no idle index nothing happens; otherwise
      the picked positions are mutated and a restore is scheduled. Only
      picked positions differ from the text, and they are never blank. */
    method Tick(picks: seq<Pick>)
      requires Valid()
      requires 1 <= |picks| <= 2
      requires forall k :: 0 <= k < |picks| ==> picks[k].glyph < |Ascii| && (|indices| > 0 ==> picks[k].slot < |indices|)
      modifies this
      ensures Valid()
      ensures |indices| == 0 ==> output == old(output) && pendingRestores == old(pendingRestores)
      ensures |indices| > 0 ==> pendingRestores == old(pendingRestores) + 1
      ensures |indices| > 0 ==> forall j :: 0 <= j < |text| && output[j] != text[j] ==>
        !IsJsSpace(text[j]) && IsGlyph(output[j])
        && exists k :: 0 <= k < |picks| && indices[picks[k].slot] == j
      ensures |indices| > 0 && |picks| == 1 ==>
        output == text[indices[picks[0].slot] := Ascii[picks[0].glyph]]
      ensures |indices| > 0 && |picks| == 2 ==>
        output == text[indices[picks[0].slot] := Ascii[picks[0].glyph]]
                      [indices[picks[1].slot] := Ascii[picks[1].glyph]]
    {
      if |indices| == 0 {
        return;
      }
      var mutated := text;
      var k := 0;
      while k < |picks|
        invariant 0 <= k <= |picks|
        invariant |mutated| == |text|
        invariant forall j :: 0 <= j < |text| && mutated[j] != text[j] ==>
          !IsJsSpace(text[j]) && IsGlyph(mutated[j])
          && exists m :: 0 <= m < k && indices[picks[m].slot] == j
        invariant k == 0 ==> mutated == text
        invariant k == 1 ==> mutated == text[indices[picks[0].slot] := Ascii[picks[0].glyph]]
        invariant k == 2 ==> mutated == text[indices[picks[0].slot] := Ascii[picks[0].glyph]]
                                            [indices[picks[1].slot] := Ascii[picks[1].glyph]]
      {
        var idx := indices[picks[k].slot];
        mutated := mutated[idx := Ascii[picks[k].glyph]];
        k := k + 1;
      }
      output := mutated;
      pendingRestores := pendingRestores + 1;
    }

    /** A restore timeout fires: the text is shown unchanged. */
    method Restore()
      requires Valid() && pendingRestores > 0
      modifies this
      ensures Valid()
      ensures output == text && pendingRestores == old(pendingRestores) - 1
    {
      output := text;
      pendingRestores := pendingRestores - 1;
    }
  }

  /* ---------------- start gate and clock ---------------- */

  /** The header's own state: whether typing has been kicked off, the
      number of typing runs started, the clock label and the icon. */
  class Header {
    var started: bool
    var ready: bool
    var typingRuns: nat
    var timeLabel: string
    var isDay: bool

    ghost predicate Valid()
      reads this
    {
      (started <==> ready) && typingRuns == (if started then 2 else 0)
    }

    constructor (intlTime: string, hour: int)
      ensures Valid()
      ensures !started && timeLabel == FormatTime(intlTime) && isDay == IsDay(hour)
    {
      started, ready, typingRuns := false, false, 0;
      timeLabel := FormatTime(intlTime);
      isDay := IsDay(hour);
    }

    /** `kick`, from the overlay-done event or the 2.2 s fallback: the
      first call marks the header ready and starts both typing runs; any
      later call does nothing. */
    method Kick()
      requires Valid()
      modifies this
      ensures Valid()
      ensures started && typingRuns == 2
      ensures old(started) ==> typingRuns == old(typingRuns)
      ensures timeLabel == old(timeLabel) && isDay == old(isDay)
    {
      if started {
        return;
      }
      started := true;
      ready := true;
      typingRuns := typingRuns + 2;
    }

    /** The five-second clock tick. */
    method ClockTick(intlTime: string, hour: int)
      requires Valid()
      modifies this`timeLabel, this`isDay
      ensures Valid()
      ensures timeLabel == FormatTime(intlTime) && isDay == IsDay(hour)
    {
      timeLabel := FormatTime(intlTime);
      isDay := IsDay(hour);
    }
  }
}
