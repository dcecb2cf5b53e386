/**
 * The overlay's pure display rules: the clock text under the seek bar, the
 * volume icon, the title shown in the top bar, the provider tab names and
 * the rows of the subtitle and audio track menus.
 */
module OverlayFormat {
  import opened Wrappers
  import opened Text
  import opened Engine

  /** Whole seconds shown for a time: a negative time counts as 0. */
  function WholeSeconds(t: real): (n: nat)
    ensures t >= 0.0 ==> n as real <= t < n as real + 1.0
    ensures t < 0.0 ==> n == 0
  {
    if t < 0.0 then 0 else t.Floor
  }

  datatype Clock = Clock(h: nat, m: nat, s: nat)

  /**
   * Hours, minutes and seconds of a time, computed as the overlay does: each
   * field truncates what is left after the larger ones are taken off.
   */
  function ClockOf(t: real): (c: Clock)
    ensures c.m < 60 && c.s < 60
    ensures c.h * 3600 + c.m * 60 + c.s == WholeSeconds(t)
  {
    var u := if t < 0.0 then 0.0 else t;
    var h := (u / 3600.0).Floor;
    assert 0 <= h && h as real * 3600.0 <= u < h as real * 3600.0 + 3600.0;
    var m := ((u - h as real * 3600.0) / 60.0).Floor;
    assert 0 <= m < 60;
    var s := (u - h as real * 3600.0 - m as real * 60.0).Floor;
    assert 0 <= s < 60;
    assert (h * 3600 + m * 60 + s) as real <= u < (h * 3600 + m * 60 + s) as real + 1.0;
    Clock(h, m, s)
  }

  /** `h:mm:ss` when there is at least one hour, `m:ss` otherwise. */
  function FormatTime(t: real): (r: string)
  {
    Join(ClockFields(ClockOf(t)), ':')
  }

  /** The colon-separated fields of a clock: the leading one unpadded. */
  function ClockFields(c: Clock): (p: seq<string>)
  {
    if c.h > 0 then [NatToString(c.h), Pad2(c.m), Pad2(c.s)]
    else [NatToString(c.m), Pad2(c.s)]
  }

  /** Reads `h:mm:ss` or `m:ss` back as a number of seconds. */
  function ParseClock(r: string): Option<nat>
  {
    var p := Split(r, ':');
    if (|p| == 2 || |p| == 3) && forall i :: 0 <= i < |p| ==> p[i] != [] && AllDigits(p[i]) then
      if |p| == 3 then Some(DigitsValue(p[0]) * 3600 + DigitsValue(p[1]) * 60 + DigitsValue(p[2]))
      else Some(DigitsValue(p[0]) * 60 + DigitsValue(p[1]))
    else None
  }

  lemma ClockFieldsSplit(c: Clock)
    requires c.m < 60 && c.s < 60
    ensures Split(Join(ClockFields(c), ':'), ':') == ClockFields(c)
  {
    var parts := ClockFields(c);
    forall i | 0 <= i < |parts| ensures ':' !in parts[i] {
      DigitsExclude(parts[i], ':');
    }
    SplitJoin(parts, ':');
  }

  /**
   * The shown clock reads back as the whole seconds of the time; it has
   * three fields when there is an hour and two otherwise, and the fields
   * after the first are two digits wide.
   */
  lemma FormatTimeRoundTrip(t: real)
    ensures ParseClock(FormatTime(t)) == Some(WholeSeconds(t))
    ensures var p := Split(FormatTime(t), ':');
      |p| == (if ClockOf(t).h > 0 then 3 else 2) && |p[|p| - 1]| == 2 && (|p| == 3 ==> |p[1]| == 2)
  {
    ClockTextRoundTrip(ClockOf(t));
  }

  lemma ClockTextRoundTrip(c: Clock)
    requires c.m < 60 && c.s < 60
    ensures ParseClock(Join(ClockFields(c), ':')) == Some(c.h * 3600 + c.m * 60 + c.s)
    ensures var p := Split(Join(ClockFields(c), ':'), ':');
      |p| == (if c.h > 0 then 3 else 2) && |p[|p| - 1]| == 2 && (|p| == 3 ==> |p[1]| == 2)
  {
    ClockFieldsSplit(c);
    ReadClockFields(c, Join(ClockFields(c), ':'));
  }

  /** Any text that splits into a clock's fields reads back as that clock's seconds. */
  lemma ReadClockFields(c: Clock, r: string)
    requires c.m < 60 && c.s < 60
    requires Split(r, ':') == ClockFields(c)
    ensures ParseClock(r) == Some(c.h * 3600 + c.m * 60 + c.s)
    ensures var p := Split(r, ':');
      |p| == (if c.h > 0 then 3 else 2) && |p[|p| - 1]| == 2 && (|p| == 3 ==> |p[1]| == 2)
  {
    if c.h > 0 {
      NatToStringRoundTrip(c.h);
      ParseHms(r, NatToString(c.h), Pad2(c.m), Pad2(c.s), c.h, c.m, c.s);
    } else {
      NatToStringRoundTrip(c.m);
      ParseMs(r, NatToString(c.m), Pad2(c.s), c.m, c.s);
    }
  }

  lemma ParseHms(r: string, a: string, b: string, d: string, h: nat, m: nat, s: nat)
    requires Split(r, ':') == [a, b, d]
    requires a != [] && AllDigits(a) && DigitsValue(a) == h
    requires b != [] && AllDigits(b) && DigitsValue(b) == m
    requires d != [] && AllDigits(d) && DigitsValue(d) == s
    ensures ParseClock(r) == Some(h * 3600 + m * 60 + s)
  {
    var p := [a, b, d];
    assert forall i :: 0 <= i < |p| ==> p[i] != [] && AllDigits(p[i]);
  }

  lemma ParseMs(r: string, a: string, d: string, m: nat, s: nat)
    requires Split(r, ':') == [a, d]
    requires a != [] && AllDigits(a) && DigitsValue(a) == m
    requires d != [] && AllDigits(d) && DigitsValue(d) == s
    ensures ParseClock(r) == Some(m * 60 + s)
  {
    var p := [a, d];
    assert forall i :: 0 <= i < |p| ==> p[i] != [] && AllDigits(p[i]);
  }

  datatype VolumeIcon = Mute | VolumeUp | VolumeDown | VolumeOff

  /** The icon of the mute button: mute when muted, else by loudness. */
  function VolumeIconFor(muted: bool, volume: int): (icon: VolumeIcon)
    ensures icon == Mute <==> muted
    ensures !muted ==> (icon == VolumeUp <==> volume > 60)
    ensures !muted ==> (icon == VolumeDown <==> 20 < volume <= 60)
    ensures !muted ==> (icon == VolumeOff <==> volume <= 20)
  {
    if muted then Mute else if volume > 60 then VolumeUp else if volume > 20 then VolumeDown else VolumeOff
  }

  function Loudness(icon: VolumeIcon): nat
  {
    match icon
    case VolumeOff => 0
    case VolumeDown => 1
    case VolumeUp => 2
    case Mute => 0
  }

  /** Turning the volume up never shows a quieter icon. */
  lemma VolumeIconMonotone(v1: int, v2: int)
    requires v1 <= v2
    ensures Loudness(VolumeIconFor(false, v1)) <= Loudness(VolumeIconFor(false, v2))
  {
  }

  const DefaultTitle := "PlayTorrio"

  /** The top bar's title: the media title, or the player's name when empty. */
  function ShownTitle(mediaTitle: string): (r: string)
    ensures r != []
    ensures mediaTitle != [] ==> r == mediaTitle
    ensures mediaTitle == [] ==> r == DefaultTitle
  {
    if mediaTitle == [] then DefaultTitle else mediaTitle
  }

  /**
   * A title too wide for the bar keeps its first `len - 3` characters and
   * gets "..." (`len` is the fitted length the caller measured); a title
   * that fits, or a fitted length of 3 or less, is left alone.
   */
  function FitTitle(title: string, tooWide: bool, len: int): (r: string)
    ensures !tooWide || len <= 3 ==> r == title
    ensures tooWide && 3 < len <= |title| + 3 ==>
      |r| == len && r[..len - 3] == title[..len - 3] && r[len - 3..] == "..."
    ensures tooWide && len > |title| + 3 ==> r == title + "..."
  {
    if tooWide && len > 3 then
      (if len - 3 <= |title| then title[..len - 3] else title) + "..."
    else title
  }

  /**
   * A provider's tab name: a name longer than 12 characters becomes its first
   * 11 characters and "..", a shorter one stays as it is.
   */
  function ShortTabName(name: string): (r: string)
    ensures |name| <= 12 ==> r == name
    ensures |name| > 12 ==> |r| == 13 && r[..11] == name[..11] && r[11..] == ".."
    ensures |r| <= 13
  {
    if |name| > 12 then name[..11] + ".." else name
  }

  function Min(a: int, b: int): int { if a <= b then a else b }

  /**
   * The tab labels of the subtitle menu: "Embedded", then at most the first
   * two providers, shortened.
   */
  function TabLabels(names: seq<string>): (r: seq<string>)
    ensures |r| == 1 + Min(|names|, 2)
    ensures r[0] == "Embedded"
    ensures forall i :: 1 <= i < |r| ==> r[i] == ShortTabName(names[i - 1])
  {
    var n := Min(|names|, 2);
    ["Embedded"] + seq(n, i requires 0 <= i < n => ShortTabName(names[i]))
  }

  /** The tracks of one kind, in the engine's order. */
  function Listed(tracks: seq<Track>, kind: string): (r: seq<Track>)
    ensures |r| <= |tracks|
    ensures forall t :: t in r <==> t in tracks && t.kind == kind
  {
    if tracks == [] then []
    else if tracks[0].kind == kind then [tracks[0]] + Listed(tracks[1..], kind)
    else Listed(tracks[1..], kind)
  }

  function TrackName(t: Track): string
  {
    if t.title == [] then "Track " + IntToString(t.id) else t.title
  }

  /** A menu row's label: the title (or `Track <id>`), then `  [lang]` if known. */
  function TrackLabel(t: Track): (text: string)
    ensures t.lang == [] ==> text == TrackName(t)
    ensures t.lang != [] ==> text == TrackName(t) + "  [" + t.lang + "]"
    ensures TrackName(t) <= text
  {
    var name := TrackName(t);
    if t.lang == [] then name else name + "  [" + t.lang + "]"
  }

  /** Whether the engine's current selection (`sid`/`aid`) is this track. */
  predicate IsCurrent(current: string, t: Track)
  {
    current == IntToString(t.id)
  }

  /** Only tracks with one and the same id can both show as selected. */
  lemma CurrentIsOneId(current: string, a: Track, b: Track)
    requires IsCurrent(current, a) && IsCurrent(current, b)
    ensures a.id == b.id
  {
    IntToStringInjective(a.id, b.id);
  }

  /** The current selection `no` (tracks disabled) marks no track. */
  lemma NoSelectsNothing(t: Track)
    ensures !IsCurrent("no", t)
  {
    IntToStringRoundTrip(t.id);
  }

  datatype TrackRow = TrackRow(text: string, selected: bool, id: int)

  /** The rows of a track menu: one per listed track, in order. */
  function TrackRows(tracks: seq<Track>, kind: string, current: string): (rows: seq<TrackRow>)
    ensures |rows| == |Listed(tracks, kind)|
    ensures forall i :: 0 <= i < |rows| ==> var t := Listed(tracks, kind)[i];
      rows[i] == TrackRow(TrackLabel(t), IsCurrent(current, t), t.id)
  {
    var l := Listed(tracks, kind);
    seq(|l|, i requires 0 <= i < |l| => TrackRow(TrackLabel(l[i]), IsCurrent(current, l[i]), l[i].id))
  }

  lemma {:induction false} ListedAppend(ts: seq<Track>, t: Track, kind: string)
    ensures Listed(ts + [t], kind) == Listed(ts, kind) + (if t.kind == kind then [t] else [])
  {
    if ts == [] {
      assert ts + [t] == [t];
      assert [t][1..] == [];
    } else {
      assert (ts + [t])[1..] == ts[1..] + [t];
      assert (ts + [t])[0] == ts[0];
      ListedAppend(ts[1..], t, kind);
    }
  }

  lemma TrackRowsAppend(ts: seq<Track>, t: Track, kind: string, current: string)
    ensures t.kind == kind ==>
      TrackRows(ts + [t], kind, current) == TrackRows(ts, kind, current) + [TrackRow(TrackLabel(t), IsCurrent(current, t), t.id)]
    ensures t.kind != kind ==> TrackRows(ts + [t], kind, current) == TrackRows(ts, kind, current)
  {
    ListedAppend(ts, t, kind);
    if t.kind != kind {
      assert Listed(ts + [t], kind) == Listed(ts, kind);
    }
  }

  /** A track menu has rows exactly when some track is of its kind. */
  lemma TrackRowsEmpty(tracks: seq<Track>, kind: string, current: string)
    ensures TrackRows(tracks, kind, current) != [] <==> exists t :: t in tracks && t.kind == kind
  {
    var l := Listed(tracks, kind);
    if l != [] {
      assert l[0] in l;
    }
    if t :| t in tracks && t.kind == kind {
      assert t in l;
    }
  }

  /**
   * The loop that draws a track menu: one row per track of the kind, in the
   * engine's order, and whether there was any (otherwise the menu shows a
   * "no tracks" notice).
   */
  method TrackMenuRows(tracks: seq<Track>, kind: string, current: string) returns (rows: seq<TrackRow>, any: bool)
    ensures rows == TrackRows(tracks, kind, current)
    ensures any <==> exists t :: t in tracks && t.kind == kind
  {
    rows := [];
    any := false;
    var i := 0;
    while i < |tracks|
      invariant 0 <= i <= |tracks|
      invariant rows == TrackRows(tracks[..i], kind, current)
      invariant any == (rows != [])
    {
      var t := tracks[i];
      assert tracks[..i + 1] == tracks[..i] + [t];
      TrackRowsAppend(tracks[..i], t, kind, current);
      if t.kind == kind {
        any := true;
        var name := if t.title == [] then "Track " + IntToString(t.id) else t.title;
        var text := if t.lang != [] then name + "  [" + t.lang + "]" else name;
        assert text == TrackLabel(t);
        rows := rows + [TrackRow(text, current == IntToString(t.id), t.id)];
      }
      i := i + 1;
    }
    assert tracks[..i] == tracks;
    TrackRowsEmpty(tracks, kind, current);
  }

  function Clamp01(x: real): (r: real)
    ensures 0.0 <= r <= 1.0
    ensures 0.0 <= x <= 1.0 ==> r == x
    ensures x < 0.0 ==> r == 0.0
    ensures x > 1.0 ==> r == 1.0
  {
    if x < 0.0 then 0.0 else if x > 1.0 then 1.0 else x
  }

  /** The filled fraction of the seek bar. */
  function DisplayedProgress(seeking: bool, seekPos: real, position: int, duration: real): real
  {
    if seeking then seekPos else if duration > 0.0 then position as real / duration else 0.0
  }

  /**
   * The bar shows the drag position while seeking, and otherwise a fraction
   * in [0,1] whenever the position lies within the duration.
   */
  lemma DisplayedProgressInRange(seeking: bool, seekPos: real, position: int, duration: real)
    requires 0.0 <= seekPos <= 1.0
    requires !seeking && duration > 0.0 ==> 0 <= position && position as real <= duration
    ensures seeking ==> DisplayedProgress(seeking, seekPos, position, duration) == seekPos
    ensures 0.0 <= DisplayedProgress(seeking, seekPos, position, duration) <= 1.0
  {
    if !seeking && duration > 0.0 {
      var q := position as real / duration;
      assert q * duration == position as real;
    }
  }
}
