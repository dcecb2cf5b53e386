/**
 * The player controller: it turns paths, dialog results, wheel events and
 * client-message commands into engine commands, and keeps the state of its
 * own two dialogs and of the window it sizes.
 */
module Controller {
  import opened Wrappers
  import opened Text
  import opened Engine
  import opened MediaFiles
  import opened Loading
  import opened OverlaySteps
  import opened Overlay
  import opened PlayerRules

  class Player {
    const mpv: Mpv
    const overlay: PlayerOverlay
    /** The extension lists of the configuration. */
    const types: FileTypes

    /** Whether the Open URL dialog is shown, and the text of its box. */
    var openURL: bool
    var urlText: string

    /** The message box. */
    var dialog: bool
    var dialogTitle: string
    var dialogMsg: string

    /** The window's position and size, and the aspect ratio last imposed on it. */
    var window: Geometry
    var aspect: Option<(int, int)>

    /** Whether the metrics view was asked for. */
    var metricsShown: bool

    constructor (mpv: Mpv, overlay: PlayerOverlay, types: FileTypes)
      ensures this.mpv == mpv && this.overlay == overlay && this.types == types
      ensures !openURL && urlText == [] && !dialog && aspect == None && !metricsShown
    {
      this.mpv := mpv;
      this.overlay := overlay;
      this.types := types;
      openURL := false;
      urlText := [];
      dialog := false;
      dialogTitle := [];
      dialogMsg := [];
      window := Geometry(0, 0, 0, 0);
      aspect := None;
      metricsShown := false;
    }

    /** The engine's playlist state, as `execute` reads it. */
    function Playlist(): PlaylistView
      reads mpv
    {
      PlaylistView(mpv.playlistCount, mpv.playlist, mpv.playlistPos, mpv.timePos, mpv.playing)
    }

    // -------------------------------------------------------------------
    // Loading
    // -------------------------------------------------------------------

    /** Player::openDvd. */
    method OpenDvd(path: string)
      modifies mpv`log
      ensures mpv.log == old(mpv.log) + DiscCommands(path, false)
    {
      mpv.SetProperty("dvd-device", path);
      mpv.Run(["loadfile", "dvd://"]);
    }

    /** Player::openBluray. */
    method OpenBluray(path: string)
      modifies mpv`log
      ensures mpv.log == old(mpv.log) + DiscCommands(path, true)
    {
      mpv.SetProperty("bluray-device", path);
      mpv.Run(["loadfile", "bd://"]);
    }

    /** The walk of one directory in `load`: each media entry is loaded, counted from `i0`. */
    method LoadFolder(entries: seq<string>, append: bool, i0: nat) returns (i: nat)
      modifies mpv`log
      ensures mpv.log == old(mpv.log) + FolderCommands(MediaEntries(entries, types), append, i0)
      ensures i == i0 + |MediaEntries(entries, types)|
    {
      i := i0;
      ghost var flags := MediaFlags(entries, types);
      var j := 0;
      while j < |entries|
        invariant 0 <= j <= |entries|
        invariant mpv.log == old(mpv.log) + FolderCommands(Keep(entries[..j], flags[..j]), append, i0)
        invariant i == i0 + |Keep(entries[..j], flags[..j])|
      {
        KeepSnoc(entries, flags, j);
        MediaFlagAt(entries, types, j);
        if IsMediaFile(entries[j], types) {
          FolderCommandsSnoc(Keep(entries[..j], flags[..j]), entries[j], append, i0);
          mpv.Run(["loadfile", entries[j], LoadAction(append, i)]);
          i := i + 1;
        }
        j := j + 1;
      }
      assert entries[..|entries|] == entries && flags[..|flags|] == flags;
    }

    /**
     * One path of the loop in `load`: a disc is opened and ends the load, a
     * folder's media entries are loaded, and any other file is loaded or
     * added as a subtitle; `i` counts what was loaded.
     */
    method LoadPath(file: FileInfo, append: bool, disk: bool, i: nat, ghost st: LoadState, ghost base: seq<Command>)
      returns (next: nat, stop: bool)
      requires !st.stopped && st.count == i && mpv.log == base + st.cmds
      modifies mpv`log
      ensures var st' := LoadStep(st, file, KindOf(file, disk, types), append, types);
        mpv.log == base + st'.cmds && next == st'.count && stop == st'.stopped
    {
      next, stop := i, false;
      ghost var k := KindOf(file, disk, types);
      if file.isDirectory {
        if disk {
          assert k == DiscFolder;
          if file.hasBdmv {
            OpenBluray(file.path);
          } else {
            OpenDvd(file.path);
          }
          AppendAssoc(base, st.cmds, DiscCommands(file.path, file.hasBdmv));
          stop := true;
          return;
        }
        assert k == Folder;
        next := LoadFolder(file.entries, append, i);
        AppendAssoc(base, st.cmds, FolderCommands(MediaEntries(file.entries, types), append, i));
      } else {
        if Extension(file.path) == ".iso" {
          assert k == DiscImage;
          if file.size > BlurayIsoSize {
            OpenBluray(file.path);
          } else {
            OpenDvd(file.path);
          }
          AppendAssoc(base, st.cmds, DiscCommands(file.path, file.size > BlurayIsoSize));
          stop := true;
          return;
        } else if IsSubtitleFile(file.path, types) {
          assert k == SubtitleFile;
          mpv.Run(["sub-add", file.path, SubtitleMode(append)]);
          AppendAssoc(base, st.cmds, [FileCommand(file, true, append, i)]);
        } else {
          assert k == OtherFile;
          mpv.Run(["loadfile", file.path, LoadAction(append, i)]);
          AppendAssoc(base, st.cmds, [FileCommand(file, false, append, i)]);
        }
        next := i + 1;
      }
    }

    /**
     * Player::load: every path in order, a counter `i` choosing the load
     * flag, and a stop at the first disc.
     */
    method Load(files: seq<FileInfo>, append: bool, disk: bool)
      modifies mpv`log
      ensures mpv.log == old(mpv.log) + LoadRun(files, append, disk, types).cmds
    {
      ghost var ks := Kinds(files, disk, types);
      var i: nat := 0;
      var n := 0;
      while n < |files|
        invariant 0 <= n <= |files|
        invariant mpv.log == old(mpv.log) + Run(files[..n], ks[..n], append, types).cmds
        invariant i == Run(files[..n], ks[..n], append, types).count
        invariant !Run(files[..n], ks[..n], append, types).stopped
      {
        RunSnoc(files, ks, n, append, types);
        var stop;
        i, stop := LoadPath(files[n], append, disk, i, Run(files[..n], ks[..n], append, types), old(mpv.log));
        if stop {
          NothingAfterStop(files, ks, n + 1, append, types);
          assert files[..|files|] == files && ks[..|ks|] == ks;
          return;
        }
        n := n + 1;
      }
      assert files[..|files|] == files && ks[..|ks|] == ks;
    }

    // -------------------------------------------------------------------
    // Commands
    // -------------------------------------------------------------------

    /** A file dialog: the engine is paused while it is open. */
    method LoadPicked(picked: Option<seq<FileInfo>>, append: bool, disk: bool)
      modifies mpv`log
      ensures mpv.log == old(mpv.log) + Paused(DialogLoad(picked, append, disk, types))
    {
      mpv.Run(["set", "pause", "yes"]);
      if picked.Some? {
        Load(picked.value, append, disk);
      }
      mpv.Run(["set", "pause", "no"]);
    }

    /** Player::openClipboard. */
    method OpenClipboard(content: string)
      modifies mpv`log
      ensures mpv.log == old(mpv.log) + ClipboardCommands(content)
    {
      if content != "" {
        var str := Trim(content);
        mpv.Run(["loadfile", str]);
        mpv.Run(["show-text", str]);
      }
    }

    /** Player::playlistSort. */
    method PlaylistSort(reverse: bool, less: (string, string) -> bool)
      modifies mpv`log
      ensures mpv.log == old(mpv.log) + PlaylistSortCommands(mpv.playlist, mpv.playlistPos, mpv.timePos, mpv.playing, reverse, less)
    {
      if mpv.playlist == [] {
        return;
      }
      var items := SortedCopy(mpv.playlist, reverse, less);
      Reload(items, mpv.playlistPos, mpv.timePos, mpv.playing);
    }

    /** The end of playlistSort: restart at the current entry and time from the list of `items`. */
    method Reload(items: seq<PlayItem>, current: int, timePos: int, playing: bool)
      modifies mpv`log
      ensures mpv.log == old(mpv.log) + ReloadCommands(items, current, timePos, playing)
    {
      var pos := FindPos(items, current);
      var lines := BuildM3U(items);
      ghost var log0 := mpv.log;
      ghost var head := [Set("playlist-start", IntToString(pos)), Set("start", "+" + IntToString(timePos))];
      mpv.SetProperty("playlist-start", IntToString(pos));
      mpv.SetProperty("start", "+" + IntToString(timePos));
      assert mpv.log == log0 + head;
      if !playing {
        mpv.Run(["playlist-clear"]);
      }
      ghost var clear: seq<Command> := if playing then [] else [["playlist-clear"]];
      assert mpv.log == log0 + head + clear;
      var load: Command := ["loadlist", "memory://" + Join(lines, '\n'), if playing then "replace" else "append"];
      mpv.Run(load);
      assert mpv.log == log0 + (head + clear + [load]);
    }

    /** The play-pause command. */
    method PlayPause(recent: seq<RecentFile>, existing: set<string>)
      modifies mpv`log
      ensures mpv.log == old(mpv.log) + PlayPauseCommands(mpv.playlistCount, recent, existing)
    {
      if mpv.playlistCount > 0 {
        mpv.Run(["cycle", "pause"]);
      } else if |recent| > 0 {
        var k := FindPlayable(recent, existing);
        if k != -1 {
          mpv.Run(["loadfile", recent[k].path]);
          mpv.Run(["set", "force-media-title", recent[k].title]);
        }
      }
    }

    /** Player::messageBox: shows the message box with this title and text. */
    method MessageBox(title: string, msg: string)
      modifies this`dialog, this`dialogTitle, this`dialogMsg
      ensures dialog && dialogTitle == title && dialogMsg == msg
    {
      dialogTitle := title;
      dialogMsg := msg;
      dialog := true;
    }

    /**
     * Player::execute: the first argument names the command, whose handler
     * is given the rest; the engine receives what the action sends, and the
     * URL dialog, the message box and the metrics view open when asked for.
     */
    method Execute(args: seq<string>, h: Host)
      modifies mpv`log, this`openURL, this`dialog, this`dialogTitle, this`dialogMsg, this`metricsShown
      ensures mpv.log == old(mpv.log) + ActionCommands(Dispatch(args), h, Playlist(), types)
      ensures openURL == (old(openURL) || Dispatch(args).ShowUrlDialog?)
      ensures metricsShown == (old(metricsShown) || Dispatch(args).ShowMetrics?)
      ensures Dispatch(args).ShowMessage? ==> dialog && dialogTitle == Dispatch(args).title && dialogMsg == Dispatch(args).message
      ensures !Dispatch(args).ShowMessage? ==> unchanged(this`dialog, this`dialogTitle, this`dialogMsg)
    {
      if |args| == 0 {
        return;
      }
      var action := Dispatch(args);
      match action
      case OpenFiles(_, append) =>
        LoadPicked(h.files, append, false);
      case OpenFile(_) =>
        LoadPicked(SingleOf(h.single), false, false);
      case OpenFolder(append, disk) =>
        LoadPicked(SingleOf(h.single), append, disk);
      case OpenClipboard =>
        OpenClipboard(h.clipboard);
      case ShowUrlDialog =>
        openURL := true;
      case OpenConfigDir =>
      case SortPlaylist(reverse) =>
        PlaylistSort(reverse, h.less);
      case PlayPause =>
        PlayPause(h.recent, h.existing);
      case ShowMetrics =>
        metricsShown := true;
      case ShowMessage(title, message) =>
        MessageBox(title, message);
      case NoAction =>
    }

    // -------------------------------------------------------------------
    // Dialogs
    // -------------------------------------------------------------------

    /** Player::drawDialog: OK or the close button dismisses the message box. */
    method DrawDialog(ok: bool, close: bool)
      modifies this`dialog
      ensures dialog <==> old(dialog) && !ok && !close
    {
      if !dialog {
        return;
      }
      if close {
        dialog := false;
        return;
      }
      if ok {
        dialog := false;
      }
    }

    /** Player::drawOpenURL: one frame of the Open URL dialog. */
    method DrawOpenURL(i: OpenUrlInput)
      modifies this`openURL, this`urlText, mpv`log
      ensures openURL == OpenUrlStep(old(openURL), old(urlText), i).0
      ensures urlText == OpenUrlStep(old(openURL), old(urlText), i).1
      ensures mpv.log == old(mpv.log) + OpenUrlStep(old(openURL), old(urlText), i).2
    {
      if !openURL {
        return;
      }
      if i.close {
        openURL := false;
        return;
      }
      if i.escape {
        openURL := false;
      }
      var loadfile := false;
      if i.typed.Some? {
        urlText := i.typed.value;
      }
      if i.enter && urlText != "" {
        loadfile := true;
      }
      if i.cancel {
        openURL := false;
      }
      if i.ok && urlText != "" {
        loadfile := true;
      }
      if loadfile {
        openURL := false;
        mpv.Run(["loadfile", urlText]);
      }
      if !openURL {
        urlText := "";
      }
    }

    // -------------------------------------------------------------------
    // Events and the window
    // -------------------------------------------------------------------

    /** Player::onScrollEvent: a key press per axis that moved, horizontal first. */
    method OnScrollEvent(x: real, y: real)
      modifies mpv`log
      ensures mpv.log == old(mpv.log) + KeyPresses(ScrollKeys(x, y))
    {
      if x != 0.0 {
        mpv.Run(["keypress", if x > 0.0 then "WHEEL_LEFT" else "WHEEL_RIGH"]);
      }
      if y != 0.0 {
        mpv.Run(["keypress", if y > 0.0 then "WHEEL_UP" else "WHEEL_DOWN"]);
      }
    }

    /** Player::restoreState on a monitor of `mw` by `mh` pixels. */
    method RestoreState(mw: int, mh: int, c: WindowConfig)
      modifies this`window
      ensures window == RestoredGeometry(mw, mh, c)
    {
      var w := FortyPercent(mw);
      if w < 600 {
        w := 600;
      }
      var h := FortyPercent(mh);
      if h < 400 {
        h := 400;
      }
      var x := TruncDiv(mw - w, 2);
      var y := TruncDiv(mh - h, 2);
      if c.save {
        if c.w > 0 {
          w := c.w;
        }
        if c.h > 0 {
          h := c.h;
        }
        if c.x >= 0 {
          x := c.x;
        }
        if c.y >= 0 {
          y := c.y;
        }
      }
      window := Geometry(x, y, w, h);
    }

    /**
     * Player::updateWindowState: follows the video's display size when
     * auto-resize is on, and imposes its aspect ratio when both keepaspect
     * options are set.
     */
    method UpdateWindowState()
      modifies this`window, this`aspect
      ensures window == ResizedGeometry(old(window), mpv.dwidth, mpv.dheight, mpv.autoResize)
      ensures aspect == if mpv.dwidth > 0 && mpv.dheight > 0 && mpv.keepaspect && mpv.keepaspectWindow
        then Some((mpv.dwidth, mpv.dheight)) else old(aspect)
    {
      var width := mpv.dwidth;
      var height := mpv.dheight;
      if width > 0 && height > 0 {
        var g := window;
        if (g.w != width || g.h != height) && mpv.autoResize {
          window := Geometry(g.x + TruncDiv(g.w - width, 2), g.y + TruncDiv(g.h - height, 2), width, height);
        }
        if mpv.keepaspect && mpv.keepaspectWindow {
          aspect := Some((width, height));
        }
      }
    }

    /** Player::setExternalSubtitleProviders: the overlay receives a faithful copy of the list. */
    method SetExternalSubtitleProviders(providers: seq<CmdSubtitleProvider>)
      modifies overlay`externalProviders
      ensures SameProviders(overlay.externalProviders, providers)
      ensures overlay.State() == old(overlay.State()).(providers := overlay.externalProviders)
    {
      var copied := CopyProviders(providers);
      overlay.SetExternalProviders(copied);
    }
  }
}
