/**
 * The player overlay: the controls drawn over the playing video and the
 * idle screen. Its fields are the flags the source keeps between frames;
 * each drawing method performs one frame of the step functions in
 * overlay_steps.dfy on those fields and sends its commands to the engine.
 */
module Overlay {
  import opened Wrappers
  import opened Text
  import opened Engine
  import opened OverlayFormat
  import opened OverlaySteps

  /** Visibility changes of the header's inline members, as state functions. */
  function ShowSpec(s: OverlayState): OverlayState { s.(visible := true) }
  function HideSpec(s: OverlayState): OverlayState { s.(visible := false) }
  function ToggleSpec(s: OverlayState): OverlayState { s.(visible := !s.visible) }

  /** Toggling twice restores the overlay; show and hide fix visibility. */
  lemma VisibilityLaws(s: OverlayState)
    ensures ToggleSpec(ToggleSpec(s)) == s
    ensures ShowSpec(s).visible && !HideSpec(s).visible
    ensures ToggleSpec(s).visible == !s.visible
    ensures ShowSpec(HideSpec(s)) == ShowSpec(s) && HideSpec(ShowSpec(s)) == HideSpec(s)
    ensures Inv(s) ==> Inv(ShowSpec(s)) && Inv(HideSpec(s)) && Inv(ToggleSpec(s))
  {
  }

  /** Regrouping a concatenation, stated once so that log equations stay syntactic. */
  lemma AppendAssoc<T>(a: seq<T>, b: seq<T>, c: seq<T>)
    ensures a + b + c == a + (b + c)
  {
  }

  class PlayerOverlay {
    const mpv: Mpv

    var visible: bool
    var showControls: bool
    var controlsAlpha: real
    var targetAlpha: real
    var lastActivityTime: real

    var showSubtitleMenu: bool
    var showAudioMenu: bool
    var showSettingsMenu: bool
    var showURLDialog: bool

    var seeking: bool
    var seekPos: real

    var externalProviders: seq<SubtitleProvider>
    var selectedProviderTab: int

    /** The text of the Open URL box; it outlives the dialog between showings. */
    var urlBuffer: string

    function State(): OverlayState
      reads this
    {
      OverlayState(
        visible, showControls, controlsAlpha, Fade(targetAlpha, lastActivityTime),
        Menus(showSubtitleMenu, showAudioMenu, showSettingsMenu),
        UrlDialog(showURLDialog, urlBuffer),
        Seek(seeking, seekPos),
        externalProviders, selectedProviderTab)
    }

    constructor (mpv: Mpv)
      ensures this.mpv == mpv
      ensures State() == Initial && Inv(State())
    {
      this.mpv := mpv;
      visible := true;
      showControls := true;
      controlsAlpha := 1.0;
      targetAlpha := 1.0;
      lastActivityTime := 0.0;
      showSubtitleMenu := false;
      showAudioMenu := false;
      showSettingsMenu := false;
      showURLDialog := false;
      seeking := false;
      seekPos := 0.0;
      externalProviders := [];
      selectedProviderTab := 0;
      urlBuffer := "";
    }

    method Show()
      modifies this`visible
      ensures State() == ShowSpec(old(State()))
    {
      visible := true;
    }

    method Hide()
      modifies this`visible
      ensures State() == HideSpec(old(State()))
    {
      visible := false;
    }

    method Toggle()
      modifies this`visible
      ensures State() == ToggleSpec(old(State()))
    {
      visible := !visible;
    }

    method IsVisible() returns (v: bool)
      ensures v == State().visible
    {
      v := visible;
    }

    method SetShowControls(show: bool)
      modifies this`showControls
      ensures State() == old(State()).(showControls := show)
    {
      showControls := show;
    }

    method GetShowControls() returns (show: bool)
      ensures show == State().showControls
    {
      show := showControls;
    }

    method SetExternalProviders(providers: seq<SubtitleProvider>)
      modifies this`externalProviders
      ensures State() == old(State()).(providers := providers)
    {
      externalProviders := providers;
    }

    /** One frame over the playing video. */
    method Draw(f: FrameInput)
      modifies this, mpv`log
      ensures State() == DrawSpec(old(State()), old(mpv.View()), f).0
      ensures mpv.log == old(mpv.log) + DrawSpec(old(State()), old(mpv.View()), f).1
    {
      ghost var s0 := State();
      ghost var log0 := mpv.log;
      if !visible {
        return;
      }
      // The engine's properties are read once for the frame.
      var v := mpv.View();
      DrawFrameStart(f);
      ghost var s1 := State();
      ghost var url := UrlFrame(s0.url, f.url).1;
      assert s1 == FrameStart(s0, f) && mpv.log == log0 + url;
      if controlsAlpha < DrawThreshold {
        assert DrawSpec(s0, v, f) == (s1, url);
        return;
      }
      ghost var c := ControlsFrame(s1, v, f);
      assert DrawSpec(s0, v, f) == (c.0, url + c.1);
      DrawControls(f, v);
      assert State() == c.0;
      AppendAssoc(log0, url, c.1);
    }

    /** The Open URL dialog, if shown, then the fade of the controls. */
    method DrawFrameStart(f: FrameInput)
      modifies this`showURLDialog, this`urlBuffer, this`lastActivityTime, this`targetAlpha, this`controlsAlpha, mpv`log
      ensures State() == FrameStart(old(State()), f)
      ensures mpv.log == old(mpv.log) + UrlFrame(old(UrlDialog(showURLDialog, urlBuffer)), f.url).1
    {
      if showURLDialog {
        OpenURL(f.url);
      }
      UpdateFade(f.now, f.pointer);
    }

    /**
     * The fade of the controls: activity, or an open menu, shows them and
     * restarts the idle clock; after the idle timeout they fade out. The alpha
     * then moves a fixed share of the way to its target and snaps once close.
     */
    method UpdateFade(now: real, pointer: Activity)
      modifies this`lastActivityTime, this`targetAlpha, this`controlsAlpha
      ensures var fade := FadeStep(old(Fade(targetAlpha, lastActivityTime)), now,
          HasActivity(AnyOpen(Menus(showSubtitleMenu, showAudioMenu, showSettingsMenu)), pointer));
        Fade(targetAlpha, lastActivityTime) == fade && controlsAlpha == AlphaStep(old(controlsAlpha), fade.target)
    {
      var inMenu := showSubtitleMenu || showAudioMenu || showSettingsMenu;
      var mouseActive := !inMenu && pointer.mouseMoved;
      var hasActivity := mouseActive || pointer.leftDown || pointer.rightDown || inMenu;
      if hasActivity {
        lastActivityTime := now;
        targetAlpha := 1.0;
      } else if now - lastActivityTime > IdleTimeout {
        targetAlpha := 0.0;
      }
      controlsAlpha := controlsAlpha + (targetAlpha - controlsAlpha) * LerpSpeed;
      if Abs(targetAlpha - controlsAlpha) < SnapDistance {
        controlsAlpha := targetAlpha;
      }
    }

    /**
     * The bars and the open menus of one frame. The controls change only the
     * seek bar, the menus and the provider tab.
     */
    method DrawControls(f: FrameInput, v: MediaView)
      modifies this`seeking, this`seekPos, this`showSubtitleMenu, this`showAudioMenu, this`showSettingsMenu
      modifies this`selectedProviderTab, mpv`log
      ensures var bars := BarsFrame(old(Seek(seeking, seekPos)), old(Menus(showSubtitleMenu, showAudioMenu, showSettingsMenu)),
          v, f);
        var menus := MenusFrame(bars.1, old(selectedProviderTab), externalProviders, v, f);
        Seek(seeking, seekPos) == bars.0 && Menus(showSubtitleMenu, showAudioMenu, showSettingsMenu) == menus.0
        && selectedProviderTab == menus.1 && mpv.log == old(mpv.log) + (bars.2 + menus.2)
    {
      ghost var log0 := mpv.log;
      ghost var bars := BarsFrame(Seek(seeking, seekPos), Menus(showSubtitleMenu, showAudioMenu, showSettingsMenu), v, f);
      DrawBars(f, v);
      ghost var menus := MenusFrame(bars.1, selectedProviderTab, externalProviders, v, f);
      DrawOpenMenus(f, v);
      AppendAssoc(log0, bars.2, menus.2);
    }

    /** The top bar, the seek bar and the bottom bar's buttons. */
    method DrawBars(f: FrameInput, v: MediaView)
      modifies this`seeking, this`seekPos, this`showSubtitleMenu, this`showAudioMenu, this`showSettingsMenu, mpv`log
      ensures var r := BarsFrame(old(Seek(seeking, seekPos)), old(Menus(showSubtitleMenu, showAudioMenu, showSettingsMenu)), v, f);
        Seek(seeking, seekPos) == r.0 && Menus(showSubtitleMenu, showAudioMenu, showSettingsMenu) == r.1
        && mpv.log == old(mpv.log) + r.2
    {
      ghost var log0 := mpv.log;
      DrawTopBar(f.back);
      ghost var seek := SeekStep(Seek(seeking, seekPos), f.seek, v.duration);
      DrawProgressBar(f.seek, v.duration);
      DrawControlButtons(f.buttons);
      AppendAssoc(log0, TopBarCommands(f.back), seek.1);
      AppendAssoc(log0, TopBarCommands(f.back) + seek.1, ButtonCommands(f.buttons));
    }

    /** The menus left open by the buttons, each drawn in turn. */
    method DrawOpenMenus(f: FrameInput, v: MediaView)
      modifies this`showSubtitleMenu, this`selectedProviderTab, this`showAudioMenu, this`showSettingsMenu, mpv`log
      ensures var r := MenusFrame(old(Menus(showSubtitleMenu, showAudioMenu, showSettingsMenu)), old(selectedProviderTab),
          externalProviders, v, f);
        Menus(showSubtitleMenu, showAudioMenu, showSettingsMenu) == r.0 && selectedProviderTab == r.1
        && mpv.log == old(mpv.log) + r.2
    {
      ghost var log0 := mpv.log;
      ghost var sub := OpenSubtitleMenuFrame(showSubtitleMenu, selectedProviderTab, externalProviders, v, f.subtitleMenu);
      DrawSubtitleMenuIfOpen(f.subtitleMenu, v);
      ghost var audio := OpenAudioMenuFrame(showAudioMenu, v, f.audioMenu);
      DrawAudioMenuIfOpen(f.audioMenu, v);
      if showSettingsMenu {
        DrawSettingsMenu(f.closeSettings);
      }
      AppendAssoc(log0, sub.1, audio.1);
    }

    method DrawSubtitleMenuIfOpen(i: SubtitleMenuInput, v: MediaView)
      modifies this`showSubtitleMenu, this`selectedProviderTab, mpv`log
      ensures var r := OpenSubtitleMenuFrame(old(showSubtitleMenu), old(selectedProviderTab), externalProviders, v, i);
        showSubtitleMenu == r.0.open && selectedProviderTab == r.0.tab && mpv.log == old(mpv.log) + r.1
    {
      if showSubtitleMenu {
        DrawSubtitleMenu(i, v);
      }
    }

    method DrawAudioMenuIfOpen(i: AudioMenuInput, v: MediaView)
      modifies this`showAudioMenu, mpv`log
      ensures var r := OpenAudioMenuFrame(old(showAudioMenu), v, i);
        showAudioMenu == r.0 && mpv.log == old(mpv.log) + r.1
    {
      if showAudioMenu {
        DrawAudioMenu(i, v);
      }
    }

    /** The top bar: its back button quits. */
    method DrawTopBar(back: bool)
      modifies mpv`log
      ensures mpv.log == old(mpv.log) + TopBarCommands(back)
    {
      if back {
        mpv.Run(["quit"]);
      }
    }

    /** The seek bar. */
    method DrawProgressBar(i: SeekInput, duration: real)
      modifies this`seeking, this`seekPos, mpv`log
      ensures Seek(seeking, seekPos) == SeekStep(old(Seek(seeking, seekPos)), i, duration).0
      ensures mpv.log == old(mpv.log) + SeekStep(old(Seek(seeking, seekPos)), i, duration).1
    {
      if i.active {
        seeking := true;
        seekPos := Clamp01(i.fraction);
      }
      if seeking && !i.active {
        mpv.Run(SeekCommand(seekPos, duration));
        seeking := false;
      }
    }

    /** The bottom bar's buttons and the volume slider. */
    method DrawControlButtons(b: ButtonsInput)
      modifies this`showSubtitleMenu, this`showAudioMenu, this`showSettingsMenu, mpv`log
      ensures Menus(showSubtitleMenu, showAudioMenu, showSettingsMenu) ==
        ButtonMenus(old(Menus(showSubtitleMenu, showAudioMenu, showSettingsMenu)), b)
      ensures mpv.log == old(mpv.log) + ButtonCommands(b)
    {
      ghost var log0 := mpv.log;
      DrawPlaybackButtons(b);
      if b.volume.Some? {
        mpv.Run(["set", "volume", IntToString(b.volume.value)]);
      }
      ghost var log1 := mpv.log;
      assert log1 == log0 + PlaybackButtonCommands(b) + VolumeCommands(b);
      DrawMenuButtons(b);
      if b.fullscreen {
        mpv.Run(["cycle", "fullscreen"]);
      }
      assert mpv.log == log1 + When(b.fullscreen, ["cycle", "fullscreen"]);
      AppendAssoc(log0, PlaybackButtonCommands(b), VolumeCommands(b));
      AppendAssoc(log0, PlaybackButtonCommands(b) + VolumeCommands(b), When(b.fullscreen, ["cycle", "fullscreen"]));
    }

    /** Play/pause, the ten-second skips and the mute button. */
    method DrawPlaybackButtons(b: ButtonsInput)
      modifies mpv`log
      ensures mpv.log == old(mpv.log) + PlaybackButtonCommands(b)
    {
      ghost var log0 := mpv.log;
      if b.playPause {
        mpv.Run(["cycle", "pause"]);
      }
      ghost var log1 := mpv.log;
      assert log1 == log0 + When(b.playPause, ["cycle", "pause"]);
      if b.back10 {
        mpv.Run(["seek", "-10"]);
      }
      ghost var log2 := mpv.log;
      assert log2 == log1 + When(b.back10, ["seek", "-10"]);
      if b.forward10 {
        mpv.Run(["seek", "10"]);
      }
      ghost var log3 := mpv.log;
      assert log3 == log2 + When(b.forward10, ["seek", "10"]);
      if b.mute {
        mpv.Run(["cycle", "mute"]);
      }
      assert mpv.log == log3 + When(b.mute, ["cycle", "mute"]);
      ghost var w1, w2, w3 := When(b.playPause, ["cycle", "pause"]), When(b.back10, ["seek", "-10"]), When(b.forward10, ["seek", "10"]);
      AppendAssoc(log0, w1, w2);
      AppendAssoc(log0, w1 + w2, w3);
      AppendAssoc(log0, w1 + w2 + w3, When(b.mute, ["cycle", "mute"]));
    }

    /** The subtitle, audio and settings buttons, in their order on the bar. */
    method DrawMenuButtons(b: ButtonsInput)
      modifies this`showSubtitleMenu, this`showAudioMenu, this`showSettingsMenu
      ensures Menus(showSubtitleMenu, showAudioMenu, showSettingsMenu) ==
        ButtonMenus(old(Menus(showSubtitleMenu, showAudioMenu, showSettingsMenu)), b)
    {
      if b.subtitles {
        ClickMenu(SubtitleMenu);
      }
      if b.audio {
        ClickMenu(AudioMenu);
      }
      if b.settings {
        ClickMenu(SettingsMenu);
      }
    }

    /** A menu button: its menu flips and the other two close. */
    method ClickMenu(w: Menu)
      modifies this`showSubtitleMenu, this`showAudioMenu, this`showSettingsMenu
      ensures Menus(showSubtitleMenu, showAudioMenu, showSettingsMenu) ==
        Click(old(Menus(showSubtitleMenu, showAudioMenu, showSettingsMenu)), w)
    {
      match w
      case SubtitleMenu =>
        showSubtitleMenu := !showSubtitleMenu;
        showAudioMenu := false;
        showSettingsMenu := false;
      case AudioMenu =>
        showAudioMenu := !showAudioMenu;
        showSubtitleMenu := false;
        showSettingsMenu := false;
      case SettingsMenu =>
        showSettingsMenu := !showSettingsMenu;
        showSubtitleMenu := false;
        showAudioMenu := false;
    }

    /** The subtitle menu, drawn while it is open. */
    method DrawSubtitleMenu(i: SubtitleMenuInput, v: MediaView)
      requires showSubtitleMenu
      modifies this`showSubtitleMenu, this`selectedProviderTab, mpv`log
      ensures SubtitleMenuState(showSubtitleMenu, selectedProviderTab) ==
        SubtitleMenuStep(old(SubtitleMenuState(showSubtitleMenu, selectedProviderTab)), externalProviders, v, i).0
      ensures mpv.log == old(mpv.log) +
        SubtitleMenuStep(old(SubtitleMenuState(showSubtitleMenu, selectedProviderTab)), externalProviders, v, i).1
    {
      ghost var tab0 := selectedProviderTab;
      if i.close {
        showSubtitleMenu := false;
      }
      if i.tab == Some(0) {
        selectedProviderTab := 0;
      }
      var k := 0;
      while k < |externalProviders| && k < 2
        invariant 0 <= k <= Min(|externalProviders|, 2)
        invariant selectedProviderTab ==
          if i.tab.Some? && 0 <= i.tab.value <= k then i.tab.value else tab0
        invariant mpv.log == old(mpv.log) && showSubtitleMenu == !i.close
      {
        if i.tab == Some(k + 1) {
          selectedProviderTab := k + 1;
        }
        k := k + 1;
      }
      assert selectedProviderTab == SelectTab(tab0, externalProviders, i.tab);
      ghost var log0 := mpv.log;
      DrawSubtitleList(i, v);
      ghost var list := SubtitleListCommands(selectedProviderTab, externalProviders, v, i);
      if i.loadFile {
        OpenSubtitleFile(i.picked);
        AppendAssoc(log0, list, SubtitleFileCommands(i.picked));
      }
    }

    /** The list under the selected tab: embedded tracks or a provider's subtitles. */
    method DrawSubtitleList(i: SubtitleMenuInput, v: MediaView)
      modifies mpv`log
      ensures mpv.log == old(mpv.log) + SubtitleListCommands(selectedProviderTab, externalProviders, v, i)
    {
      if selectedProviderTab == 0 {
        var rows, hasEmbedded := TrackMenuRows(v.tracks, "sub", v.sid);
        ghost var log0 := mpv.log;
        if i.track.Some? && 0 <= i.track.value < |rows| {
          mpv.SetProperty("sid", IntToString(rows[i.track.value].id));
        }
        assert mpv.log == log0 + TrackClick(rows, i.track, "sid");
        ghost var log1 := mpv.log;
        if i.disable {
          mpv.Run(["set", "sid", "no"]);
        }
        assert mpv.log == log1 + When(i.disable, Set("sid", "no"));
        AppendAssoc(log0, TrackClick(rows, i.track, "sid"), When(i.disable, Set("sid", "no")));
      } else {
        var provIdx := selectedProviderTab - 1;
        if 0 <= provIdx < |externalProviders| {
          var subs := externalProviders[provIdx].subtitles;
          if i.external.Some? && 0 <= i.external.value < |subs| {
            mpv.Run(["sub-add", subs[i.external.value].url, "select"]);
          }
        }
      }
    }

    /** "Load Subtitle File": the menu closes and playback pauses around the dialog. */
    method OpenSubtitleFile(picked: Option<string>)
      modifies this`showSubtitleMenu, mpv`log
      ensures !showSubtitleMenu
      ensures mpv.log == old(mpv.log) + SubtitleFileCommands(picked)
    {
      showSubtitleMenu := false;
      ghost var log0 := mpv.log;
      mpv.Run(["set", "pause", "yes"]);
      if picked.Some? {
        mpv.Run(["sub-add", picked.value, "select"]);
      }
      ghost var added := if picked.Some? then [["sub-add", picked.value, "select"]] else [];
      assert mpv.log == log0 + [Set("pause", "yes")] + added;
      mpv.Run(["set", "pause", "no"]);
      AppendAssoc(log0, [Set("pause", "yes")], added);
      AppendAssoc(log0, [Set("pause", "yes")] + added, [Set("pause", "no")]);
    }

    /** The audio menu, drawn while it is open. */
    method DrawAudioMenu(i: AudioMenuInput, v: MediaView)
      requires showAudioMenu
      modifies this`showAudioMenu, mpv`log
      ensures showAudioMenu == AudioMenuStep(true, v, i).0
      ensures mpv.log == old(mpv.log) + AudioMenuStep(true, v, i).1
    {
      if i.close {
        showAudioMenu := false;
      }
      var rows, hasAudio := TrackMenuRows(v.tracks, "audio", v.aid);
      if i.track.Some? && 0 <= i.track.value < |rows| {
        mpv.SetProperty("aid", IntToString(rows[i.track.value].id));
      }
    }

    /** The settings menu, drawn while it is open; only its close button is modelled. */
    method DrawSettingsMenu(close: bool)
      requires showSettingsMenu
      modifies this`showSettingsMenu
      ensures showSettingsMenu == !close
    {
      if close {
        showSettingsMenu := false;
      }
    }

    /** The Open URL dialog, drawn while it is shown. */
    method OpenURL(i: UrlInput)
      requires showURLDialog
      modifies this`showURLDialog, this`urlBuffer, mpv`log
      ensures UrlDialog(showURLDialog, urlBuffer) == UrlStep(old(UrlDialog(showURLDialog, urlBuffer)), i).0
      ensures mpv.log == old(mpv.log) + UrlStep(old(UrlDialog(showURLDialog, urlBuffer)), i).1
    {
      if i.typed.Some? {
        urlBuffer := i.typed.value;
      }
      var enterPressed := i.enter;
      if i.cancel {
        showURLDialog := false;
        urlBuffer := "";
      }
      var hasUrl := urlBuffer != "";
      if (i.play && hasUrl) || (enterPressed && hasUrl) {
        mpv.Run(["loadfile", urlBuffer]);
        showURLDialog := false;
        urlBuffer := "";
      }
    }

    /** "Open File" on the idle screen: the picked file, if any, is loaded. */
    method OpenMediaFile(picked: Option<string>)
      modifies mpv`log
      ensures mpv.log == old(mpv.log) + (if picked.Some? then [["loadfile", picked.value]] else [])
    {
      if picked.Some? {
        mpv.Run(["loadfile", picked.value]);
      }
    }

    /** One frame of the idle screen. */
    method DrawIdleScreen(i: IdleInput)
      modifies this`showURLDialog, this`urlBuffer, mpv`log
      ensures State() == IdleSpec(old(State()), i).0
      ensures mpv.log == old(mpv.log) + IdleSpec(old(State()), i).1
    {
      if showURLDialog {
        OpenURL(i.url);
      }
      if i.openFile {
        OpenMediaFile(i.picked);
      }
      if i.openUrl {
        showURLDialog := true;
      }
    }
  }
}
