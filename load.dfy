/**
 * The commands `Player::load` sends for a list of paths, as a fold over the
 * paths. Each path has a counter value: the counter starts at 0 and moves on
 * for every media or subtitle file loaded. The first path that opens a disc
 * (an ISO image, or a folder when the disc flag is set) ends the load.
 * Whatever the filesystem says about a path is an input here.
 */
module Loading {
  import opened Engine
  import opened MediaFiles

  /**
   * What the filesystem reports about one path: whether it is a directory,
   * its size in bytes, whether it holds a "BDMV" entry, and the paths a
   * recursive walk of it yields, in the walk's order.
   */
  datatype FileInfo = FileInfo(path: string, isDirectory: bool, size: nat, hasBdmv: bool, entries: seq<string>)

  /** An ISO image larger than 4.7 GB (decimal units) is taken for a Blu-ray disc. */
  const BlurayIsoSize: nat := 4_700_000_000

  /** The loadfile flag for counter value `i`. */
  function LoadAction(append: bool, i: nat): string
  {
    if append then "append" else if i > 0 then "append-play" else "replace"
  }

  /** The sub-add flag: an appended subtitle is only added, otherwise it is selected. */
  function SubtitleMode(append: bool): string
  {
    if append then "auto" else "select"
  }

  /** Player::openBluray and Player::openDvd: set the device, then load the disc. */
  function DiscCommands(path: string, bluray: bool): seq<Command>
  {
    if bluray then [Set("bluray-device", path), ["loadfile", "bd://"]]
    else [Set("dvd-device", path), ["loadfile", "dvd://"]]
  }

  /** How `load` treats one path. */
  datatype PathKind = DiscFolder | Folder | DiscImage | SubtitleFile | OtherFile

  function KindOf(f: FileInfo, disk: bool, types: FileTypes): PathKind
  {
    if f.isDirectory then (if disk then DiscFolder else Folder)
    else if Extension(f.path) == ".iso" then DiscImage
    else if IsSubtitleFile(f.path, types) then SubtitleFile
    else OtherFile
  }

  /** Whether `load` opens this path as a disc (and stops). */
  predicate IsDisc(k: PathKind)
  {
    k == DiscFolder || k == DiscImage
  }

  /** Whether that disc is a Blu-ray rather than a DVD. */
  predicate IsBluray(f: FileInfo)
  {
    if f.isDirectory then f.hasBdmv else f.size > BlurayIsoSize
  }

  /** The command for a path that is neither a directory nor an ISO image. */
  function FileCommand(f: FileInfo, subtitle: bool, append: bool, i: nat): Command
  {
    if subtitle then ["sub-add", f.path, SubtitleMode(append)]
    else ["loadfile", f.path, LoadAction(append, i)]
  }

  /** Which entries of a directory walk are media files. */
  function MediaFlags(entries: seq<string>, types: FileTypes): (flags: seq<bool>)
    ensures |flags| == |entries|
    decreases |entries|
  {
    if entries == [] then []
    else
      var n := |entries| - 1;
      MediaFlags(entries[..n], types) + [IsMediaFile(entries[n], types)]
  }

  lemma {:induction false} MediaFlagAt(entries: seq<string>, types: FileTypes, m: nat)
    requires m < |entries|
    ensures MediaFlags(entries, types)[m] == IsMediaFile(entries[m], types)
    decreases |entries|
  {
    var n := |entries| - 1;
    if m < n {
      MediaFlagAt(entries[..n], types, m);
    }
  }

  /** The entries whose flag is set, in order. */
  function Keep(entries: seq<string>, flags: seq<bool>): seq<string>
    requires |flags| == |entries|
    decreases |entries|
  {
    if entries == [] then []
    else
      var n := |entries| - 1;
      if flags[n] then Keep(entries[..n], flags[..n]) + [entries[n]] else Keep(entries[..n], flags[..n])
  }

  /** The media entries of a directory walk, in the walk's order. */
  function MediaEntries(entries: seq<string>, types: FileTypes): seq<string>
  {
    Keep(entries, MediaFlags(entries, types))
  }

  lemma {:induction false} KeepMembers(entries: seq<string>, flags: seq<bool>)
    requires |flags| == |entries|
    ensures forall p :: p in Keep(entries, flags) <==> exists m :: 0 <= m < |entries| && flags[m] && entries[m] == p
    decreases |entries|
  {
    if entries != [] {
      var n := |entries| - 1;
      KeepMembers(entries[..n], flags[..n]);
      forall p ensures p in Keep(entries, flags) <==> exists m :: 0 <= m < |entries| && flags[m] && entries[m] == p {
        if p in Keep(entries[..n], flags[..n]) {
          var m :| 0 <= m < n && flags[..n][m] && entries[..n][m] == p;
          assert flags[m] && entries[m] == p;
        }
        if exists m :: 0 <= m < |entries| && flags[m] && entries[m] == p {
          var m :| 0 <= m < |entries| && flags[m] && entries[m] == p;
          if m < n {
            assert flags[..n][m] && entries[..n][m] == p;
          }
        }
      }
    }
  }

  /** A walk keeps exactly its media entries. */
  lemma MediaEntriesMembers(entries: seq<string>, types: FileTypes)
    ensures forall p :: p in MediaEntries(entries, types) <==> p in entries && IsMediaFile(p, types)
  {
    var flags := MediaFlags(entries, types);
    KeepMembers(entries, flags);
    forall m | 0 <= m < |entries| ensures flags[m] == IsMediaFile(entries[m], types) {
      MediaFlagAt(entries, types, m);
    }
  }

  /** A prefix of the walk keeps the prefix's media entries. */
  lemma MediaFlagsPrefix(entries: seq<string>, j: nat, types: FileTypes)
    requires j <= |entries|
    ensures MediaFlags(entries, types)[..j] == MediaFlags(entries[..j], types)
  {
    forall m | 0 <= m < j ensures MediaFlags(entries, types)[m] == MediaFlags(entries[..j], types)[m] {
      MediaFlagAt(entries, types, m);
      MediaFlagAt(entries[..j], types, m);
    }
  }

  /** One more entry of a walk: kept when it is a media file. */
  lemma KeepSnoc(entries: seq<string>, flags: seq<bool>, j: nat)
    requires |flags| == |entries| && j < |entries|
    ensures Keep(entries[..j + 1], flags[..j + 1]) ==
      if flags[j] then Keep(entries[..j], flags[..j]) + [entries[j]] else Keep(entries[..j], flags[..j])
  {
    assert entries[..j + 1][..j] == entries[..j];
    assert flags[..j + 1][..j] == flags[..j];
  }

  /** The loadfile commands for media paths met with counter values `i`, `i + 1`, ... */
  function FolderCommands(media: seq<string>, append: bool, i: nat): seq<Command>
    decreases |media|
  {
    if media == [] then []
    else
      var n := |media| - 1;
      FolderCommands(media[..n], append, i) + [["loadfile", media[n], LoadAction(append, i + n)]]
  }

  /** One more media path adds one loadfile, with the flag of the next counter value. */
  lemma FolderCommandsSnoc(media: seq<string>, p: string, append: bool, i: nat)
    ensures FolderCommands(media + [p], append, i) == FolderCommands(media, append, i) + [["loadfile", p, LoadAction(append, i + |media|)]]
  {
    assert (media + [p])[..|media|] == media;
  }

  /** The k-th media path is loaded k-th, with the flag of counter value i + k. */
  lemma {:induction false} FolderCommandsAt(media: seq<string>, append: bool, i: nat)
    ensures |FolderCommands(media, append, i)| == |media|
    ensures forall k :: 0 <= k < |media| ==>
      FolderCommands(media, append, i)[k] == ["loadfile", media[k], LoadAction(append, i + k)]
    decreases |media|
  {
    if media != [] {
      var n := |media| - 1;
      FolderCommandsAt(media[..n], append, i);
    }
  }

  /** The state of a load: the commands so far, the counter, and whether a disc ended it. */
  datatype LoadState = LoadState(cmds: seq<Command>, count: nat, stopped: bool)

  /** One path of the loop in `load`. */
  function LoadStep(st: LoadState, f: FileInfo, k: PathKind, append: bool, types: FileTypes): LoadState
  {
    if st.stopped then st
    else
      match k
      case DiscFolder => LoadState(st.cmds + DiscCommands(f.path, f.hasBdmv), st.count, true)
      case Folder =>
        var m := MediaEntries(f.entries, types);
        LoadState(st.cmds + FolderCommands(m, append, st.count), st.count + |m|, false)
      case DiscImage => LoadState(st.cmds + DiscCommands(f.path, f.size > BlurayIsoSize), st.count, true)
      case SubtitleFile => LoadState(st.cmds + [FileCommand(f, true, append, st.count)], st.count + 1, false)
      case OtherFile => LoadState(st.cmds + [FileCommand(f, false, append, st.count)], st.count + 1, false)
  }

  /** The kind of every path, in order. */
  function Kinds(files: seq<FileInfo>, disk: bool, types: FileTypes): (ks: seq<PathKind>)
    ensures |ks| == |files|
    ensures forall m :: 0 <= m < |files| ==> ks[m] == KindOf(files[m], disk, types)
  {
    seq(|files|, m requires 0 <= m < |files| => KindOf(files[m], disk, types))
  }

  /** The loop over the paths, given the kind of each. */
  function Run(files: seq<FileInfo>, ks: seq<PathKind>, append: bool, types: FileTypes): LoadState
    requires |ks| == |files|
    decreases |files|
  {
    if files == [] then LoadState([], 0, false)
    else
      var n := |files| - 1;
      LoadStep(Run(files[..n], ks[..n], append, types), files[n], ks[n], append, types)
  }

  /** One more path of the loop. */
  lemma RunSnoc(files: seq<FileInfo>, ks: seq<PathKind>, n: nat, append: bool, types: FileTypes)
    requires |ks| == |files| && n < |files|
    ensures Run(files[..n + 1], ks[..n + 1], append, types) == LoadStep(Run(files[..n], ks[..n], append, types), files[n], ks[n], append, types)
  {
    assert files[..n + 1][..n] == files[..n] && ks[..n + 1][..n] == ks[..n];
  }

  /** Player::load: the loop over the paths, each classified as `load` does. */
  function LoadRun(files: seq<FileInfo>, append: bool, disk: bool, types: FileTypes): LoadState
  {
    Run(files, Kinds(files, disk, types), append, types)
  }

  /** The loadfile flag of a command is the one for its position, and a subtitle's mode follows `append`. */
  predicate FlagsByPosition(cmds: seq<Command>, append: bool)
  {
    forall k :: 0 <= k < |cmds| && |cmds[k]| == 3 ==>
      (cmds[k][0] == "loadfile" ==> cmds[k][2] == LoadAction(append, k))
      && (cmds[k][0] == "sub-add" ==> cmds[k][2] == SubtitleMode(append))
  }

  /** Until a disc ends the load, the counter is the number of commands sent. */
  lemma {:induction false} CountIsLength(files: seq<FileInfo>, ks: seq<PathKind>, append: bool, types: FileTypes)
    requires |ks| == |files|
    ensures var st := Run(files, ks, append, types);
      !st.stopped ==> st.count == |st.cmds|
    decreases |files|
  {
    if files != [] {
      var n := |files| - 1;
      CountIsLength(files[..n], ks[..n], append, types);
      var st := Run(files[..n], ks[..n], append, types);
      if !st.stopped && ks[n] == Folder {
        FolderCommandsAt(MediaEntries(files[n].entries, types), append, st.count);
      }
    }
  }

  lemma FolderFlags(prev: seq<Command>, media: seq<string>, append: bool)
    requires FlagsByPosition(prev, append)
    ensures FlagsByPosition(prev + FolderCommands(media, append, |prev|), append)
  {
    FolderCommandsAt(media, append, |prev|);
    var cmds := prev + FolderCommands(media, append, |prev|);
    forall k | |prev| <= k < |cmds| && |cmds[k]| == 3
      ensures cmds[k][0] == "loadfile" ==> cmds[k][2] == LoadAction(append, k)
      ensures cmds[k][0] != "sub-add"
    {
      assert cmds[k] == FolderCommands(media, append, |prev|)[k - |prev|];
    }
  }

  lemma DiscFlags(prev: seq<Command>, path: string, bluray: bool, append: bool)
    requires FlagsByPosition(prev, append)
    ensures FlagsByPosition(prev + DiscCommands(path, bluray), append)
  {
    var cmds := prev + DiscCommands(path, bluray);
    assert cmds[|prev|] == DiscCommands(path, bluray)[0];
    assert cmds[|prev| + 1] == DiscCommands(path, bluray)[1];
  }

  lemma FileFlags(prev: seq<Command>, f: FileInfo, subtitle: bool, append: bool)
    requires FlagsByPosition(prev, append)
    ensures FlagsByPosition(prev + [FileCommand(f, subtitle, append, |prev|)], append)
  {
    var cmds := prev + [FileCommand(f, subtitle, append, |prev|)];
    assert cmds[|prev|] == FileCommand(f, subtitle, append, |prev|);
  }

  lemma {:induction false} RunFlags(files: seq<FileInfo>, ks: seq<PathKind>, append: bool, types: FileTypes)
    requires |ks| == |files|
    ensures FlagsByPosition(Run(files, ks, append, types).cmds, append)
    decreases |files|
  {
    if files != [] {
      var n := |files| - 1;
      var f := files[n];
      RunFlags(files[..n], ks[..n], append, types);
      CountIsLength(files[..n], ks[..n], append, types);
      var st := Run(files[..n], ks[..n], append, types);
      if !st.stopped {
        match ks[n]
        case DiscFolder => DiscFlags(st.cmds, f.path, f.hasBdmv, append);
        case Folder => FolderFlags(st.cmds, MediaEntries(f.entries, types), append);
        case DiscImage => DiscFlags(st.cmds, f.path, f.size > BlurayIsoSize, append);
        case SubtitleFile => FileFlags(st.cmds, f, true, append);
        case OtherFile => FileFlags(st.cmds, f, false, append);
      }
    }
  }

  /**
   * Every loadfile of a file or folder entry carries the flag of its position
   * in the log: with `append` all are "append", otherwise the first command
   * is "replace" and every later one "append-play"; sub-add modes follow
   * `append`.
   */
  lemma LoadFlagsByPosition(files: seq<FileInfo>, append: bool, disk: bool, types: FileTypes)
    ensures FlagsByPosition(LoadRun(files, append, disk, types).cmds, append)
  {
    RunFlags(files, Kinds(files, disk, types), append, types);
  }

  /** So without `append`, "replace" can only be the very first command. */
  lemma ReplaceOnlyFirst(files: seq<FileInfo>, disk: bool, types: FileTypes, k: int)
    requires var cmds := LoadRun(files, false, disk, types).cmds;
      0 <= k < |cmds| && |cmds[k]| == 3 && cmds[k][0] == "loadfile"
    ensures LoadRun(files, false, disk, types).cmds[k][2] == (if k == 0 then "replace" else "append-play")
  {
    LoadFlagsByPosition(files, false, disk, types);
  }

  /** Once a disc has ended the load, the remaining paths change nothing. */
  lemma {:induction false} NothingAfterStop(files: seq<FileInfo>, ks: seq<PathKind>, j: nat, append: bool, types: FileTypes)
    requires |ks| == |files| && j <= |files| && Run(files[..j], ks[..j], append, types).stopped
    ensures Run(files, ks, append, types) == Run(files[..j], ks[..j], append, types)
    decreases |files|
  {
    if j < |files| {
      var n := |files| - 1;
      assert files[..n][..j] == files[..j] && ks[..n][..j] == ks[..j];
      NothingAfterStop(files[..n], ks[..n], j, append, types);
    } else {
      assert files[..j] == files && ks[..j] == ks;
    }
  }

  /** Until a disc, the load goes on. */
  lemma {:induction false} NoDiscNoStop(files: seq<FileInfo>, ks: seq<PathKind>, append: bool, types: FileTypes)
    requires |ks| == |files|
    requires forall m :: 0 <= m < |ks| ==> !IsDisc(ks[m])
    ensures !Run(files, ks, append, types).stopped
    decreases |files|
  {
    if files != [] {
      var n := |files| - 1;
      assert forall m :: 0 <= m < n ==> ks[..n][m] == ks[m];
      NoDiscNoStop(files[..n], ks[..n], append, types);
    }
  }

  lemma RunFirstDisc(files: seq<FileInfo>, ks: seq<PathKind>, j: nat, append: bool, types: FileTypes)
    requires |ks| == |files| && j < |files| && IsDisc(ks[j])
    requires forall m :: 0 <= m < j ==> !IsDisc(ks[m])
    ensures var st := Run(files, ks, append, types);
      st.stopped && st.cmds == Run(files[..j], ks[..j], append, types).cmds
        + DiscCommands(files[j].path, if ks[j] == DiscFolder then files[j].hasBdmv else files[j].size > BlurayIsoSize)
  {
    assert forall m :: 0 <= m < j ==> ks[..j][m] == ks[m];
    NoDiscNoStop(files[..j], ks[..j], append, types);
    assert files[..j + 1][..j] == files[..j] && ks[..j + 1][..j] == ks[..j];
    assert files[..j + 1][j] == files[j] && ks[..j + 1][j] == ks[j];
    NothingAfterStop(files, ks, j + 1, append, types);
  }

  lemma KindsPrefix(files: seq<FileInfo>, j: nat, disk: bool, types: FileTypes)
    requires j <= |files|
    ensures Kinds(files, disk, types)[..j] == Kinds(files[..j], disk, types)
  {
  }

  /**
   * The first disc path ends the load: its two commands are the last ones
   * sent, for a Blu-ray exactly when the disc is one (a folder holding BDMV,
   * or an ISO image over 4.7 GB).
   */
  lemma FirstDiscStops(files: seq<FileInfo>, j: nat, append: bool, disk: bool, types: FileTypes)
    requires j < |files| && IsDisc(KindOf(files[j], disk, types))
    requires forall m :: 0 <= m < j ==> !IsDisc(KindOf(files[m], disk, types))
    ensures var st := LoadRun(files, append, disk, types);
      st.stopped && st.cmds == LoadRun(files[..j], append, disk, types).cmds + DiscCommands(files[j].path, IsBluray(files[j]))
  {
    var ks := Kinds(files, disk, types);
    RunFirstDisc(files, ks, j, append, types);
    KindsPrefix(files, j, disk, types);
  }

  /** Plain files keep the load going and send one command each. */
  lemma {:induction false} RunPlainFilesLength(files: seq<FileInfo>, ks: seq<PathKind>, append: bool, types: FileTypes)
    requires |ks| == |files|
    requires forall m :: 0 <= m < |ks| ==> ks[m] == SubtitleFile || ks[m] == OtherFile
    ensures var st := Run(files, ks, append, types);
      !st.stopped && |st.cmds| == |files| && st.count == |files|
    decreases |files|
  {
    if files != [] {
      var n := |files| - 1;
      assert forall m :: 0 <= m < n ==> ks[..n][m] == ks[m];
      RunPlainFilesLength(files[..n], ks[..n], append, types);
    }
  }

  /** The k-th plain file sends the k-th command. */
  lemma {:induction false} RunPlainFileAt(files: seq<FileInfo>, ks: seq<PathKind>, append: bool, types: FileTypes, k: nat)
    requires |ks| == |files| && k < |files|
    requires forall m :: 0 <= m < |ks| ==> ks[m] == SubtitleFile || ks[m] == OtherFile
    ensures var cmds := Run(files, ks, append, types).cmds;
      k < |cmds| && cmds[k] == FileCommand(files[k], ks[k] == SubtitleFile, append, k)
    decreases |files|
  {
    var n := |files| - 1;
    var pf, pk := files[..n], ks[..n];
    assert forall m :: 0 <= m < n ==> pk[m] == ks[m];
    RunPlainFilesLength(pf, pk, append, types);
    var st := Run(pf, pk, append, types);
    var cmd := FileCommand(files[n], ks[n] == SubtitleFile, append, n);
    assert Run(files, ks, append, types) == LoadState(st.cmds + [cmd], n + 1, false);
    if k < n {
      RunPlainFileAt(pf, pk, append, types, k);
      assert pf[k] == files[k] && pk[k] == ks[k];
      assert (st.cmds + [cmd])[k] == st.cmds[k];
    }
  }

  /**
   * Paths that are neither directories nor ISO images give one command each,
   * in order: a subtitle is added, anything else is loaded with the flag of
   * its position.
   */
  lemma PlainFilesOneEach(files: seq<FileInfo>, append: bool, disk: bool, types: FileTypes)
    requires forall m :: 0 <= m < |files| ==> !files[m].isDirectory && Extension(files[m].path) != ".iso"
    ensures var st := LoadRun(files, append, disk, types);
      !st.stopped && |st.cmds| == |files|
      && forall k :: 0 <= k < |files| ==>
        st.cmds[k] == FileCommand(files[k], IsSubtitleFile(files[k].path, types), append, k)
  {
    var ks := Kinds(files, disk, types);
    RunPlainFilesLength(files, ks, append, types);
    forall k | 0 <= k < |files|
      ensures LoadRun(files, append, disk, types).cmds[k] == FileCommand(files[k], IsSubtitleFile(files[k].path, types), append, k)
    {
      RunPlainFileAt(files, ks, append, types, k);
    }
  }

  lemma RunFolder(f: FileInfo, append: bool, types: FileTypes)
    ensures var m := MediaEntries(f.entries, types);
      Run([f], [Folder], append, types) == LoadState(FolderCommands(m, append, 0), |m|, false)
  {
    assert [f][..0] == [] && [Folder][..0] == [];
  }

  /** A folder loads its media entries, in the walk's order and nothing else. */
  lemma FolderLoadsItsMedia(f: FileInfo, append: bool, types: FileTypes)
    requires f.isDirectory
    ensures var cmds := LoadRun([f], append, false, types).cmds;
      var m := MediaEntries(f.entries, types);
      |cmds| == |m| && forall k :: 0 <= k < |m| ==> cmds[k] == ["loadfile", m[k], LoadAction(append, k)]
  {
    assert Kinds([f], false, types) == [Folder];
    RunFolder(f, append, types);
    FolderCommandsAt(MediaEntries(f.entries, types), append, 0);
  }
}
