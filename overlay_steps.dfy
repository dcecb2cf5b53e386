/**
 * What one frame of the player overlay does, as functions from the overlay's
 * state, the engine state it reads and the frame's user input to the new
 * state and the commands it sends to the engine. The class in overlay.dfy
 * performs these steps on its fields; the lemmas here state what the steps
 * guarantee.
 */
module OverlaySteps {
  import opened Wrappers
  import opened Text
  import opened Engine
  import opened OverlayFormat

  /** An external subtitle offered by a provider: a display name and a URL. */
  datatype ExternalSubtitle = ExternalSubtitle(name: string, url: string)

  /** A subtitle provider: one tab of the subtitle menu. */
  datatype SubtitleProvider = SubtitleProvider(name: string, subtitles: seq<ExternalSubtitle>)

  // ---------------------------------------------------------------------
  // The three pop-up menus of the bottom bar
  // ---------------------------------------------------------------------

  datatype Menu = SubtitleMenu | AudioMenu | SettingsMenu

  datatype Menus = Menus(subtitles: bool, audio: bool, settings: bool)

  function IsOpen(m: Menus, w: Menu): bool
  {
    match w
    case SubtitleMenu => m.subtitles
    case AudioMenu => m.audio
    case SettingsMenu => m.settings
  }

  predicate AtMostOneOpen(m: Menus)
  {
    !(m.subtitles && m.audio) && !(m.subtitles && m.settings) && !(m.audio && m.settings)
  }

  predicate AnyOpen(m: Menus)
  {
    m.subtitles || m.audio || m.settings
  }

  const AllClosed := Menus(false, false, false)

  /** A click on a menu's button flips that menu and closes the other two. */
  function Click(m: Menus, w: Menu): (r: Menus)
    ensures IsOpen(r, w) == !IsOpen(m, w)
    ensures forall o: Menu :: o != w ==> !IsOpen(r, o)
    ensures AtMostOneOpen(r)
  {
    match w
    case SubtitleMenu => Menus(!m.subtitles, false, false)
    case AudioMenu => Menus(false, !m.audio, false)
    case SettingsMenu => Menus(false, false, !m.settings)
  }

  /** The menus after a sequence of button clicks, oldest first. */
  function Clicks(m: Menus, ws: seq<Menu>): Menus
    decreases |ws|
  {
    if ws == [] then m else Clicks(Click(m, ws[0]), ws[1..])
  }

  /** Clicking a button twice leaves its menu as it was and the others closed. */
  lemma ClickTwice(m: Menus, w: Menu)
    ensures IsOpen(Click(Click(m, w), w), w) == IsOpen(m, w)
    ensures forall o: Menu :: o != w ==> !IsOpen(Click(Click(m, w), w), o)
    ensures !IsOpen(m, w) ==> Click(Click(m, w), w) == AllClosed
  {
    var r := Click(Click(m, w), w);
    if !IsOpen(m, w) {
      assert !IsOpen(r, SubtitleMenu) && !IsOpen(r, AudioMenu) && !IsOpen(r, SettingsMenu);
    }
  }

  /** No sequence of clicks opens two menus at once. */
  lemma {:induction false} ClicksKeepAtMostOne(m: Menus, ws: seq<Menu>)
    requires AtMostOneOpen(m)
    ensures AtMostOneOpen(Clicks(m, ws))
    decreases |ws|
  {
    if ws != [] {
      ClicksKeepAtMostOne(Click(m, ws[0]), ws[1..]);
    }
  }

  /** After at least one click, the last clicked menu alone may be open. */
  lemma {:induction false} ClicksLastWins(m: Menus, ws: seq<Menu>)
    requires ws != []
    ensures forall o: Menu :: o != ws[|ws| - 1] ==> !IsOpen(Clicks(m, ws), o)
    decreases |ws|
  {
    if |ws| > 1 {
      ClicksLastWins(Click(m, ws[0]), ws[1..]);
      assert ws[1..][|ws[1..]| - 1] == ws[|ws| - 1];
    }
  }

  // ---------------------------------------------------------------------
  // Fading the controls in and out
  // ---------------------------------------------------------------------

  /** Seconds without activity after which the controls fade out. */
  const IdleTimeout: real := 3.0
  /** Fraction of the remaining distance the alpha covers per frame. */
  const LerpSpeed: real := 0.12
  /** Distance below which the alpha snaps to its target. */
  const SnapDistance: real := 0.005
  /** Alpha below which the bars are not drawn at all. */
  const DrawThreshold: real := 0.01

  /** The pointer input of one frame. */
  datatype Activity = Activity(mouseMoved: bool, leftDown: bool, rightDown: bool)

  /**
   * Whether the frame counts as activity. Pointer motion is ignored while a
   * menu is open, but an open menu counts as activity by itself.
   */
  function HasActivity(inMenu: bool, a: Activity): (r: bool)
    ensures r <==> inMenu || a.mouseMoved || a.leftDown || a.rightDown
  {
    var mouseActive := !inMenu && a.mouseMoved;
    mouseActive || a.leftDown || a.rightDown || inMenu
  }

  datatype Fade = Fade(target: real, lastActivity: real)

  /** The fade target: 1 on activity, 0 once the idle time exceeds the timeout. */
  function FadeStep(f: Fade, now: real, active: bool): (r: Fade)
    ensures active ==> r == Fade(1.0, now)
    ensures !active ==> r.lastActivity == f.lastActivity
    ensures !active && now - f.lastActivity > IdleTimeout ==> r.target == 0.0
    ensures !active && now - f.lastActivity <= IdleTimeout ==> r == f
  {
    if active then Fade(1.0, now)
    else if now - f.lastActivity > IdleTimeout then Fade(0.0, f.lastActivity)
    else f
  }

  /**
   * The target only drops to 0 after more than the timeout without
   * activity, and it stays 0 or 1.
   */
  lemma FadeOutNeedsIdle(f: Fade, now: real, active: bool)
    requires f.target == 0.0 || f.target == 1.0
    ensures var r := FadeStep(f, now, active);
      (r.target == 0.0 || r.target == 1.0) &&
      (r.target == 0.0 && f.target == 1.0 ==> !active && now - r.lastActivity > IdleTimeout)
  {
  }

  /** While any menu is open the controls are kept up and the clock restarts. */
  lemma OpenMenuKeepsControls(f: Fade, now: real, m: Menus, a: Activity)
    requires AnyOpen(m)
    ensures FadeStep(f, now, HasActivity(AnyOpen(m), a)) == Fade(1.0, now)
  {
  }

  /** One frame of easing toward the target, snapping once it is close. */
  function AlphaStep(alpha: real, target: real): (a: real)
    ensures alpha <= target ==> alpha <= a <= target
    ensures target <= alpha ==> target <= a <= alpha
    ensures a == target || Abs(target - a) >= SnapDistance
  {
    var eased := alpha + (target - alpha) * LerpSpeed;
    if Abs(target - eased) < SnapDistance then target else eased
  }

  /** The alpha stays within [0,1] and never moves away from its target. */
  lemma AlphaStaysInRange(alpha: real, target: real)
    requires 0.0 <= alpha <= 1.0 && 0.0 <= target <= 1.0
    ensures 0.0 <= AlphaStep(alpha, target) <= 1.0
    ensures Abs(target - AlphaStep(alpha, target)) <= Abs(target - alpha)
  {
  }

  /** Each frame far from the target closes at least a fixed share of the gap. */
  lemma AlphaProgress(alpha: real, target: real)
    ensures Abs(target - AlphaStep(alpha, target)) <= (1.0 - LerpSpeed) * Abs(target - alpha)
  {
    var eased := alpha + (target - alpha) * LerpSpeed;
    assert target - eased == (1.0 - LerpSpeed) * (target - alpha);
  }

  // ---------------------------------------------------------------------
  // Dragging the seek bar
  // ---------------------------------------------------------------------

  datatype Seek = Seek(seeking: bool, pos: real)

  /** Whether the seek bar is held this frame, and where the pointer is as a
      fraction of the bar's width (before clamping). */
  datatype SeekInput = SeekInput(active: bool, fraction: real)

  /**
   * The absolute seek sent on release, to the fraction `pos` of the
   * duration; the time is printed as `%f`.
   */
  function SeekCommand(pos: real, duration: real): Command
  {
    ["seek", FixedPoint(pos * duration), "absolute"]
  }

  /** One frame of the seek bar. */
  function SeekStep(s: Seek, i: SeekInput, duration: real): (r: (Seek, seq<Command>))
    ensures i.active ==> r.0 == Seek(true, Clamp01(i.fraction)) && r.1 == []
    ensures !i.active && s.seeking ==> r.0 == Seek(false, s.pos) && r.1 == [SeekCommand(s.pos, duration)]
    ensures !i.active && !s.seeking ==> r.0 == s && r.1 == []
  {
    if i.active then (Seek(true, Clamp01(i.fraction)), [])
    else if s.seeking then (Seek(false, s.pos), [SeekCommand(s.pos, duration)])
    else (s, [])
  }

  /** One frame's seek-bar input together with the duration read that frame. */
  datatype SeekFrame = SeekFrame(input: SeekInput, duration: real)

  /** The seek bar's state after several frames. */
  function SeekRunState(s: Seek, frames: seq<SeekFrame>): Seek
    decreases |frames|
  {
    if frames == [] then s
    else SeekRunState(SeekStep(s, frames[0].input, frames[0].duration).0, frames[1..])
  }

  /** Every command the seek bar sends over several frames, oldest first. */
  function SeekRunCommands(s: Seek, frames: seq<SeekFrame>): seq<Command>
    decreases |frames|
  {
    if frames == [] then []
    else
      var step := SeekStep(s, frames[0].input, frames[0].duration);
      step.1 + SeekRunCommands(step.0, frames[1..])
  }

  /** Holding the bar sends nothing and remembers the last clamped pointer. */
  lemma {:induction false} DragSendsNothing(s: Seek, drag: seq<SeekFrame>)
    requires drag != []
    requires forall k :: 0 <= k < |drag| ==> drag[k].input.active
    ensures SeekRunState(s, drag) == Seek(true, Clamp01(drag[|drag| - 1].input.fraction))
    ensures SeekRunCommands(s, drag) == []
    decreases |drag|
  {
    var step := SeekStep(s, drag[0].input, drag[0].duration);
    if |drag| > 1 {
      assert forall k :: 0 <= k < |drag[1..]| ==> drag[1..][k] == drag[k + 1];
      DragSendsNothing(step.0, drag[1..]);
      assert drag[1..][|drag[1..]| - 1] == drag[|drag| - 1];
    } else {
      assert drag[1..] == [];
    }
  }

  lemma {:induction false} SeekRunAppend(s: Seek, a: seq<SeekFrame>, b: seq<SeekFrame>)
    ensures SeekRunState(s, a + b) == SeekRunState(SeekRunState(s, a), b)
    ensures SeekRunCommands(s, a + b) == SeekRunCommands(s, a) + SeekRunCommands(SeekRunState(s, a), b)
    decreases |a|
  {
    if a == [] {
      assert a + b == b;
    } else {
      assert (a + b)[1..] == a[1..] + b;
      assert (a + b)[0] == a[0];
      var step := SeekStep(s, a[0].input, a[0].duration);
      SeekRunAppend(step.0, a[1..], b);
    }
  }

  /**
   * A drag followed by a release sends exactly one absolute seek, to the
   * last clamped pointer position times the duration at release, and ends
   * the drag.
   */
  lemma DragThenRelease(s: Seek, drag: seq<SeekFrame>, release: SeekFrame)
    requires drag != []
    requires forall k :: 0 <= k < |drag| ==> drag[k].input.active
    requires !release.input.active
    ensures var p := Clamp01(drag[|drag| - 1].input.fraction);
      SeekRunState(s, drag + [release]) == Seek(false, p) &&
      SeekRunCommands(s, drag + [release]) == [SeekCommand(p, release.duration)]
  {
    SeekRunAppend(s, drag, [release]);
    DragSendsNothing(s, drag);
    var held := SeekRunState(s, drag);
    var p := Clamp01(drag[|drag| - 1].input.fraction);
    var last := SeekStep(held, release.input, release.duration);
    assert held == Seek(true, p);
    assert last.1 == [SeekCommand(p, release.duration)];
    assert [release][1..] == [];
    assert SeekRunCommands(held, [release]) == last.1 + SeekRunCommands(last.0, []);
    assert SeekRunCommands(held, [release]) == last.1;
    assert SeekRunCommands(s, drag + [release]) == [] + last.1;
  }

  /** Without a drag in progress, frames in which the bar is not held send
      nothing and change nothing. */
  lemma {:induction false} IdleSendsNoSeek(s: Seek, frames: seq<SeekFrame>)
    requires !s.seeking
    requires forall k :: 0 <= k < |frames| ==> !frames[k].input.active
    ensures SeekRunState(s, frames) == s
    ensures SeekRunCommands(s, frames) == []
    decreases |frames|
  {
    if frames != [] {
      assert forall k :: 0 <= k < |frames[1..]| ==> frames[1..][k] == frames[k + 1];
      IdleSendsNoSeek(s, frames[1..]);
    }
  }

  // ---------------------------------------------------------------------
  // The Open URL dialog
  // ---------------------------------------------------------------------

  /** Whether the dialog is shown, and the text in its input box. */
  datatype UrlDialog = UrlDialog(open: bool, buffer: string)

  /**
   * One frame of the dialog's controls: the box's text after this frame's
   * editing (None when untouched), Enter in the box, and the two buttons.
   */
  datatype UrlInput = UrlInput(typed: Option<string>, enter: bool, cancel: bool, play: bool)

  /**
   * Cancel closes the dialog and clears the box with no command; Play, or
   * Enter, with a non-empty box loads the URL once, clears the box and
   * closes; an empty box loads nothing (its Play button is disabled).
   */
  function UrlStep(d: UrlDialog, i: UrlInput): (r: (UrlDialog, seq<Command>))
    requires d.open
    ensures var text := if i.typed.Some? then i.typed.value else d.buffer;
      && (i.cancel ==> r == (UrlDialog(false, ""), []))
      && (!i.cancel && (i.play || i.enter) && text != [] ==> r == (UrlDialog(false, ""), [["loadfile", text]]))
      && (!i.cancel && !(i.play || i.enter) ==> r == (UrlDialog(true, text), []))
      && (text == [] ==> r.1 == [])
    ensures !r.0.open ==> r.0.buffer == []
    ensures |r.1| <= 1
  {
    var text := if i.typed.Some? then i.typed.value else d.buffer;
    var afterCancel := if i.cancel then UrlDialog(false, "") else UrlDialog(d.open, text);
    var hasUrl := afterCancel.buffer != [];
    if (i.play && hasUrl) || (i.enter && hasUrl) then (UrlDialog(false, ""), [["loadfile", afterCancel.buffer]])
    else (afterCancel, [])
  }

  // ---------------------------------------------------------------------
  // Buttons of the bars
  // ---------------------------------------------------------------------

  /** The top bar's back button quits the player. */
  function TopBarCommands(back: bool): (cmds: seq<Command>)
    ensures back <==> cmds == [["quit"]]
    ensures !back <==> cmds == []
  {
    When(back, ["quit"])
  }

  /**
   * The bottom bar's buttons clicked this frame, and the value the volume
   * slider was moved to (None when untouched).
   */
  datatype ButtonsInput = ButtonsInput(
    playPause: bool, back10: bool, forward10: bool, mute: bool, volume: Option<int>,
    subtitles: bool, audio: bool, settings: bool, fullscreen: bool)

  function Flag(b: bool): nat { if b then 1 else 0 }

  /** The engine commands of the bottom bar, in the order the controls are laid out. */
  function ButtonCommands(b: ButtonsInput): seq<Command>
  {
    PlaybackButtonCommands(b) + VolumeCommands(b) + When(b.fullscreen, ["cycle", "fullscreen"])
  }

  /** Play/pause, the two ten-second skips and mute, in their order. */
  function PlaybackButtonCommands(b: ButtonsInput): seq<Command>
  {
    When(b.playPause, ["cycle", "pause"]) + When(b.back10, ["seek", "-10"])
    + When(b.forward10, ["seek", "10"]) + When(b.mute, ["cycle", "mute"])
  }

  function VolumeCommands(b: ButtonsInput): seq<Command>
  {
    if b.volume.Some? then [Set("volume", IntToString(b.volume.value))] else []
  }

  /**
   * Each button sends its own command exactly when it was clicked, and a
   * moved slider sets the volume to its value; nothing else is sent.
   */
  lemma ButtonCommandsContents(b: ButtonsInput)
    ensures var cmds := ButtonCommands(b);
      && (b.playPause <==> ["cycle", "pause"] in cmds)
      && (b.back10 <==> ["seek", "-10"] in cmds)
      && (b.forward10 <==> ["seek", "10"] in cmds)
      && (b.mute <==> ["cycle", "mute"] in cmds)
      && (b.fullscreen <==> ["cycle", "fullscreen"] in cmds)
      && (b.volume.Some? ==> Set("volume", IntToString(b.volume.value)) in cmds)
  {
  }

  /** One command per clicked button, plus one for a moved volume slider. */
  lemma ButtonCommandsCount(b: ButtonsInput)
    ensures |ButtonCommands(b)| == Flag(b.playPause) + Flag(b.back10) + Flag(b.forward10) + Flag(b.mute)
      + Flag(b.volume.Some?) + Flag(b.fullscreen)
  {
  }

  /** The menus after the bottom bar's menu buttons, in their order. */
  function ButtonMenus(m: Menus, b: ButtonsInput): (r: Menus)
    ensures AtMostOneOpen(m) ==> AtMostOneOpen(r)
    ensures !(b.subtitles || b.audio || b.settings) ==> r == m
  {
    var m1 := if b.subtitles then Click(m, SubtitleMenu) else m;
    var m2 := if b.audio then Click(m1, AudioMenu) else m1;
    if b.settings then Click(m2, SettingsMenu) else m2
  }

  // ---------------------------------------------------------------------
  // The subtitle, audio and settings menus
  // ---------------------------------------------------------------------

  /** Selecting a track row sets the track property to that row's id. */
  function TrackClick(rows: seq<TrackRow>, clicked: Option<int>, property: string): (cmds: seq<Command>)
    ensures |cmds| <= 1
    ensures cmds != [] <==> clicked.Some? && 0 <= clicked.value < |rows|
    ensures cmds != [] ==> cmds == [Set(property, IntToString(rows[clicked.value].id))]
  {
    if clicked.Some? && 0 <= clicked.value < |rows| then [Set(property, IntToString(rows[clicked.value].id))] else []
  }

  /** Choosing a provider's subtitle adds it and selects it. */
  function ExternalClick(subs: seq<ExternalSubtitle>, clicked: Option<int>): (cmds: seq<Command>)
    ensures |cmds| <= 1
    ensures cmds != [] <==> clicked.Some? && 0 <= clicked.value < |subs|
    ensures cmds != [] ==> cmds == [["sub-add", subs[clicked.value].url, "select"]]
  {
    if clicked.Some? && 0 <= clicked.value < |subs| then [["sub-add", subs[clicked.value].url, "select"]] else []
  }

  /**
   * Loading a subtitle file from the menu: the menu closes and playback is
   * paused around the file dialog; the picked file, if any, is added and
   * selected.
   */
  function SubtitleFileCommands(picked: Option<string>): (cmds: seq<Command>)
    ensures |cmds| >= 2 && cmds[0] == Set("pause", "yes") && cmds[|cmds| - 1] == Set("pause", "no")
    ensures picked.None? ==> |cmds| == 2
    ensures picked.Some? ==> |cmds| == 3 && cmds[1] == ["sub-add", picked.value, "select"]
  {
    [Set("pause", "yes")] + (if picked.Some? then [["sub-add", picked.value, "select"]] else []) + [Set("pause", "no")]
  }

  /**
   * One frame of the subtitle menu's controls: its close button, the tab
   * clicked (0 for the embedded tracks, k for the k-th provider), the row
   * clicked in the embedded list, "Disable Subtitles", the row clicked in a
   * provider's list, "Load Subtitle File" and the file the dialog returned.
   */
  datatype SubtitleMenuInput = SubtitleMenuInput(
    close: bool, tab: Option<int>, track: Option<int>, disable: bool,
    external: Option<int>, loadFile: bool, picked: Option<string>)

  /** The tab shown after a click: only tabs that are drawn can be chosen. */
  function SelectTab(tab: int, providers: seq<SubtitleProvider>, clicked: Option<int>): (r: int)
    ensures clicked.Some? && 0 <= clicked.value <= Min(|providers|, 2) ==> r == clicked.value
    ensures !(clicked.Some? && 0 <= clicked.value <= Min(|providers|, 2)) ==> r == tab
  {
    if clicked.Some? && 0 <= clicked.value <= Min(|providers|, 2) then clicked.value else tab
  }

  /** The commands of the subtitle menu's list for the selected tab. */
  function SubtitleListCommands(tab: int, providers: seq<SubtitleProvider>, v: MediaView, i: SubtitleMenuInput): seq<Command>
  {
    if tab == 0 then
      TrackClick(TrackRows(v.tracks, "sub", v.sid), i.track, "sid")
      + When(i.disable, Set("sid", "no"))
    else if 0 <= tab - 1 < |providers| then ExternalClick(providers[tab - 1].subtitles, i.external)
    else []
  }

  datatype SubtitleMenuState = SubtitleMenuState(open: bool, tab: int)

  function SubtitleMenuStep(s: SubtitleMenuState, providers: seq<SubtitleProvider>, v: MediaView, i: SubtitleMenuInput)
    : (r: (SubtitleMenuState, seq<Command>))
    ensures r.0.tab == SelectTab(s.tab, providers, i.tab)
    ensures r.0.open == (s.open && !i.close && !i.loadFile)
  {
    var open1 := if i.close then false else s.open;
    var tab1 := SelectTab(s.tab, providers, i.tab);
    var cmds := SubtitleListCommands(tab1, providers, v, i);
    if i.loadFile then (SubtitleMenuState(false, tab1), cmds + SubtitleFileCommands(i.picked))
    else (SubtitleMenuState(open1, tab1), cmds)
  }

  /** A click on a provider's subtitle adds exactly that subtitle's URL. */
  lemma ProviderSubtitleAdded(s: SubtitleMenuState, providers: seq<SubtitleProvider>, v: MediaView, i: SubtitleMenuInput, k: int)
    requires i.tab == Some(k) && 1 <= k <= Min(|providers|, 2) && !i.loadFile
    requires i.external.Some? && 0 <= i.external.value < |providers[k - 1].subtitles|
    ensures SubtitleMenuStep(s, providers, v, i).1 == [["sub-add", providers[k - 1].subtitles[i.external.value].url, "select"]]
  {
  }

  /** On the embedded tab, a list click selects that listed subtitle track. */
  lemma EmbeddedTrackSelected(s: SubtitleMenuState, providers: seq<SubtitleProvider>, v: MediaView, i: SubtitleMenuInput)
    requires SelectTab(s.tab, providers, i.tab) == 0 && !i.disable && !i.loadFile
    requires i.track.Some? && 0 <= i.track.value < |Listed(v.tracks, "sub")|
    ensures var t := Listed(v.tracks, "sub")[i.track.value];
      t.kind == "sub" && SubtitleMenuStep(s, providers, v, i).1 == [Set("sid", IntToString(t.id))]
  {
    var t := Listed(v.tracks, "sub")[i.track.value];
    assert t in Listed(v.tracks, "sub");
  }

  datatype AudioMenuInput = AudioMenuInput(close: bool, track: Option<int>)

  function AudioMenuStep(open: bool, v: MediaView, i: AudioMenuInput): (r: (bool, seq<Command>))
    ensures r.0 == (open && !i.close)
    ensures r.1 == TrackClick(TrackRows(v.tracks, "audio", v.aid), i.track, "aid")
  {
    (if i.close then false else open, TrackClick(TrackRows(v.tracks, "audio", v.aid), i.track, "aid"))
  }

  // ---------------------------------------------------------------------
  // One whole frame
  // ---------------------------------------------------------------------

  datatype OverlayState = OverlayState(
    visible: bool,
    showControls: bool,
    alpha: real,
    fade: Fade,
    menus: Menus,
    url: UrlDialog,
    seek: Seek,
    providers: seq<SubtitleProvider>,
    tab: int)

  /** Visible, opaque, every menu and the dialog closed, no drag. */
  const Initial := OverlayState(true, true, 1.0, Fade(1.0, 0.0), AllClosed, UrlDialog(false, ""), Seek(false, 0.0), [], 0)

  /** Everything the user did during one frame of playback. */
  datatype FrameInput = FrameInput(
    now: real,
    pointer: Activity,
    url: UrlInput,
    back: bool,
    seek: SeekInput,
    buttons: ButtonsInput,
    subtitleMenu: SubtitleMenuInput,
    audioMenu: AudioMenuInput,
    closeSettings: bool)

  /** What the overlay keeps true from frame to frame. */
  predicate Inv(s: OverlayState)
  {
    && AtMostOneOpen(s.menus)
    && 0.0 <= s.alpha <= 1.0
    && (s.fade.target == 0.0 || s.fade.target == 1.0)
    && 0.0 <= s.seek.pos <= 1.0
    && (!s.url.open ==> s.url.buffer == [])
    && 0 <= s.tab <= 2
  }

  lemma InitialInv()
    ensures Inv(Initial)
    ensures !AnyOpen(Initial.menus)
  {
  }

  /** The dialog step, run only while the dialog is shown. */
  function UrlFrame(d: UrlDialog, i: UrlInput): (r: (UrlDialog, seq<Command>))
    ensures !d.open ==> r == (d, [])
  {
    if d.open then UrlStep(d, i) else (d, [])
  }

  /** The top bar, the seek bar and the bottom bar's buttons: the new seek bar and menus, and the commands. */
  function BarsFrame(seek: Seek, menus: Menus, v: MediaView, f: FrameInput): (Seek, Menus, seq<Command>)
  {
    var step := SeekStep(seek, f.seek, v.duration);
    (step.0, ButtonMenus(menus, f.buttons), TopBarCommands(f.back) + step.1 + ButtonCommands(f.buttons))
  }

  /** The subtitle menu's frame when it is open, and nothing when it is closed. */
  function OpenSubtitleMenuFrame(open: bool, tab: int, providers: seq<SubtitleProvider>, v: MediaView, i: SubtitleMenuInput)
    : (SubtitleMenuState, seq<Command>)
  {
    if open then SubtitleMenuStep(SubtitleMenuState(true, tab), providers, v, i)
    else (SubtitleMenuState(false, tab), [])
  }

  /** The audio menu's frame when it is open, and nothing when it is closed. */
  function OpenAudioMenuFrame(open: bool, v: MediaView, i: AudioMenuInput): (bool, seq<Command>)
  {
    if open then AudioMenuStep(true, v, i) else (false, [])
  }

  /** The menus that are open after the buttons, each drawn in turn: the new menus and tab, and the commands. */
  function MenusFrame(m: Menus, tab: int, providers: seq<SubtitleProvider>, v: MediaView, f: FrameInput)
    : (Menus, int, seq<Command>)
  {
    var sub := OpenSubtitleMenuFrame(m.subtitles, tab, providers, v, f.subtitleMenu);
    var audio := OpenAudioMenuFrame(m.audio, v, f.audioMenu);
    (Menus(sub.0.open, audio.0, m.settings && !f.closeSettings), sub.0.tab, sub.1 + audio.1)
  }

  /** The bars and the open menus, once the controls are visible enough. */
  function ControlsFrame(s: OverlayState, v: MediaView, f: FrameInput): (OverlayState, seq<Command>)
  {
    var bars := BarsFrame(s.seek, s.menus, v, f);
    var menus := MenusFrame(bars.1, s.tab, s.providers, v, f);
    (s.(seek := bars.0, menus := menus.0, tab := menus.1), bars.2 + menus.2)
  }

  /** The start of a frame: the dialog, then the fade target and the alpha. */
  function FrameStart(s: OverlayState, f: FrameInput): OverlayState
  {
    var fade := FadeStep(s.fade, f.now, HasActivity(AnyOpen(s.menus), f.pointer));
    s.(url := UrlFrame(s.url, f.url).0, fade := fade, alpha := AlphaStep(s.alpha, fade.target))
  }

  /** One frame of the overlay over the playing video. */
  function DrawSpec(s: OverlayState, v: MediaView, f: FrameInput): (OverlayState, seq<Command>)
  {
    if !s.visible then (s, [])
    else
      var s1 := FrameStart(s, f);
      if s1.alpha < DrawThreshold then (s1, UrlFrame(s.url, f.url).1)
      else
        var controls := ControlsFrame(s1, v, f);
        (controls.0, UrlFrame(s.url, f.url).1 + controls.1)
  }

  /** Every frame keeps the overlay's invariant. */
  lemma DrawKeepsInv(s: OverlayState, v: MediaView, f: FrameInput)
    requires Inv(s)
    ensures Inv(DrawSpec(s, v, f).0)
  {
    if s.visible {
      var url := UrlFrame(s.url, f.url);
      var fade := FadeStep(s.fade, f.now, HasActivity(AnyOpen(s.menus), f.pointer));
      AlphaStaysInRange(s.alpha, fade.target);
      var alpha := AlphaStep(s.alpha, fade.target);
      var s1 := s.(url := url.0, fade := fade, alpha := alpha);
      if alpha >= DrawThreshold {
        ControlsKeepInv(s1, v, f);
      }
    }
  }

  lemma ControlsKeepInv(s: OverlayState, v: MediaView, f: FrameInput)
    requires Inv(s)
    ensures Inv(ControlsFrame(s, v, f).0)
  {
    var menus := ButtonMenus(s.menus, f.buttons);
    var r := ControlsFrame(s, v, f).0;
    assert r.menus.subtitles ==> menus.subtitles;
    assert r.menus.audio ==> menus.audio;
    assert r.menus.settings ==> menus.settings;
  }

  /** A hidden overlay does nothing at all. */
  lemma HiddenDoesNothing(s: OverlayState, v: MediaView, f: FrameInput)
    requires !s.visible
    ensures DrawSpec(s, v, f) == (s, [])
  {
  }

  /**
   * While the controls are faded out, the bars and menus neither change nor
   * send anything; only the dialog can.
   */
  lemma FadedControlsAreInert(s: OverlayState, v: MediaView, f: FrameInput)
    requires s.visible
    requires AlphaStep(s.alpha, FadeStep(s.fade, f.now, HasActivity(AnyOpen(s.menus), f.pointer)).target) < DrawThreshold
    ensures var r := DrawSpec(s, v, f);
      r.0.menus == s.menus && r.0.seek == s.seek && r.0.tab == s.tab &&
      r.1 == UrlFrame(s.url, f.url).1
  {
  }

  /** The user input of one frame of the idle screen. */
  datatype IdleInput = IdleInput(url: UrlInput, openFile: bool, picked: Option<string>, openUrl: bool)

  /**
   * The idle screen: the dialog if shown, then "Open File" loads the picked
   * file and "Open URL" shows the dialog.
   */
  function IdleSpec(s: OverlayState, i: IdleInput): (r: (OverlayState, seq<Command>))
    ensures i.openUrl ==> r.0.url.open
    ensures !i.openUrl ==> r.0.url == UrlFrame(s.url, i.url).0
    ensures r.0.menus == s.menus && r.0.seek == s.seek && r.0.visible == s.visible
  {
    var url := UrlFrame(s.url, i.url);
    var load: seq<Command> := if i.openFile && i.picked.Some? then [["loadfile", i.picked.value]] else [];
    var dialog := if i.openUrl then url.0.(open := true) else url.0;
    (s.(url := dialog), url.1 + load)
  }

  /** The idle screen keeps the invariant too. */
  lemma IdleKeepsInv(s: OverlayState, i: IdleInput)
    requires Inv(s)
    ensures Inv(IdleSpec(s, i).0)
  {
  }
}
