/**
 * The embedded playback engine (mpv) as the player sees it: a sink for
 * commands and property writes, recorded here as an append-only log, and the
 * engine-owned state the user interface reads every frame. The engine itself
 * (decoding, rendering, its event threads) is outside the model; the fields
 * below are whatever the engine last reported.
 */
module Engine {
  /** One command, as its list of arguments. A string command such as
      "cycle pause" is recorded split into its words. */
  type Command = seq<string>

  /** A property write, recorded as the equivalent `set <name> <value>`. */
  function Set(name: string, value: string): Command
  {
    ["set", name, value]
  }

  /** The command `c` if `b` holds, and nothing otherwise. */
  function When(b: bool, c: Command): seq<Command>
  {
    if b then [c] else []
  }

  /** One entry of the engine's track list. */
  datatype Track = Track(id: int, kind: string, title: string, lang: string)

  /** One entry of the engine's playlist. */
  datatype PlayItem = PlayItem(id: int, title: string, path: string)

  /** The engine state the overlay reads while drawing one frame. */
  datatype MediaView = MediaView(
    duration: real,
    timePos: int,
    muted: bool,
    volume: int,
    tracks: seq<Track>,
    sid: string,
    aid: string,
    mediaTitle: string)

  class Mpv {
    /** Every command and property write issued so far, oldest first. */
    var log: seq<Command>

    var duration: real
    var timePos: int
    var muted: bool
    var volume: int
    var tracks: seq<Track>
    var sid: string
    var aid: string
    var mediaTitle: string
    var playlist: seq<PlayItem>
    var playlistPos: int
    var playlistCount: int
    var playing: bool
    var dwidth: int
    var dheight: int
    var autoResize: bool
    var keepaspect: bool
    var keepaspectWindow: bool

    constructor ()
      ensures log == [] && tracks == [] && playlist == []
    {
      log := [];
      tracks := [];
      playlist := [];
    }

    /** Everything the overlay reads from the engine; the log is not part of it. */
    function View(): MediaView
      reads this`duration, this`timePos, this`muted, this`volume, this`tracks, this`sid, this`aid, this`mediaTitle
    {
      MediaView(duration, timePos, muted, volume, tracks, sid, aid, mediaTitle)
    }

    /** mpv_command / mpv_command_string. */
    method Run(args: Command)
      modifies this`log
      ensures log == old(log) + [args]
    {
      log := log + [args];
    }

    /** mpv_set_property. */
    method SetProperty(name: string, value: string)
      modifies this`log
      ensures log == old(log) + [Set(name, value)]
    {
      log := log + [Set(name, value)];
    }
  }
}
