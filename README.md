# PlayTorrioPlayer: overlay and player controller

This project models the decision logic of PlayTorrioPlayer, a desktop media
player built on mpv and Dear ImGui, and proves properties of that model in Dafny.

The model covers three parts.

- **The player overlay** (`PlayerOverlay`). These are the controls drawn over the
  video, plus the idle screen. The class keeps the source's own flags between
  frames:
  - visibility and show-controls;
  - the current and target alpha, and the time of the last activity;
  - the three menu flags and the URL dialog with its text buffer;
  - the seek-drag state;
  - the external subtitle providers and the selected provider tab.

  Each drawing method performs one frame. It takes the frame's user input as
  abstract booleans and options (button clicked, item active, Enter pressed,
  text typed, file picked). It is proved against a step function in
  `overlay_steps.dfy`.
- **The overlay's formatting rules** (`overlay_format.dfy`):
  - the `h:mm:ss` / `m:ss` time display;
  - the volume icon;
  - the title fallback and ellipsis;
  - provider tab names;
  - track labels and the "selected" test;
  - the displayed progress.
- **The player controller** (`Player` in `player.cpp`):
  - the per-path load sequencing in `load`, with its disc handling;
  - the media and subtitle extension tests;
  - `playlistSort`: the sort, the position lookup and the M3U text;
  - `execute` command dispatch, with the play-pause fallback to recent files;
  - scroll-to-key mapping;
  - window geometry on start-up and on a video-size change;
  - the modal dialogs' flags;
  - copying the subtitle provider list into the overlay.

The mpv engine is the class `Engine.Mpv`. Its `log` field is an append-only log
of every command the player sends (`seq<seq<string>>`).
- A property write is logged as `set <name> <value>`.
- A string command such as `cycle pause` is logged split into its words.

The engine state the player reads (tracks, sid/aid, duration, playlist, window
size, options) is a set of fields that the environment sets. So every statement
such as "exactly one seek is sent" or "nothing is loaded" is a statement about
that log.

Files:
- `engine.dfy`: the engine log and the engine-owned state.
- `text.dfy`: decimal and fixed-point number text with its parsers, padding,
  join/split on a separator, and whitespace trimming.
- `media_files.dfy`: a path's file name and extension, and the media and subtitle tests.
- `load.dfy`: the load loop as a fold over the paths.
- `overlay_format.dfy`, `overlay_steps.dfy`, `overlay.dfy`: the overlay.
- `player_rules.dfy`, `player.dfy`: the controller.

## Model

| member | source | states |
|---|---|---|
| Overlay.PlayerOverlay.constructor | source/views/player_overlay.cpp:12-16 | The overlay starts visible, with controls shown and full alpha. All three menus and the URL dialog are closed, it is not seeking, and the seek position is 0. The frame invariant holds. |
| OverlaySteps.InitialInv | include/views/player_overlay.h:38-50 | The initial field values satisfy the frame invariant: at most one menu open, alpha in [0,1], a target of 0 or 1, seek position in [0,1], a closed dialog has an empty buffer, and the tab is in 0..2. No menu is open. |
| Overlay.PlayerOverlay.Show | include/views/player_overlay.h:13 | After `show` the overlay is visible and nothing else changed. |
| Overlay.PlayerOverlay.Hide | include/views/player_overlay.h:14 | After `hide` the overlay is hidden and nothing else changed. |
| Overlay.PlayerOverlay.Toggle | include/views/player_overlay.h:15 | `toggle` negates visibility and changes nothing else. |
| Overlay.PlayerOverlay.IsVisible | include/views/player_overlay.h:16 | Returns the visibility flag. |
| Overlay.ShowSpec | include/views/player_overlay.h:13 | Defines the state after `show`: visible, all else kept. `VisibilityLaws` proves its laws and `Show` is held to it. |
| Overlay.HideSpec | include/views/player_overlay.h:14 | Defines the state after `hide`: hidden, all else kept. `VisibilityLaws` proves its laws and `Hide` is held to it. |
| Overlay.ToggleSpec | include/views/player_overlay.h:15 | Defines the state after `toggle`: visibility negated, all else kept. `VisibilityLaws` proves that two toggles cancel. |
| Overlay.VisibilityLaws | include/views/player_overlay.h:13-16 | Two toggles restore the state. Show makes the overlay visible and hide makes it hidden. Show after hide equals show, and hide after show equals hide. All three keep the frame invariant. |
| Overlay.PlayerOverlay.SetShowControls | include/views/player_overlay.h:18 | Stores the flag and changes nothing else. |
| Overlay.PlayerOverlay.GetShowControls | include/views/player_overlay.h:19 | Returns the last value stored by SetShowControls. |
| Overlay.PlayerOverlay.SetExternalProviders | source/player.cpp:167 | Replaces the overlay's provider list and changes nothing else. |
| Overlay.PlayerOverlay.Draw | source/views/player_overlay.cpp:18-51 | One frame: the new state and the commands sent are exactly those of `DrawSpec`. |
| OverlaySteps.DrawSpec | source/views/player_overlay.cpp:18-51 | Defines one frame. A hidden overlay is returned unchanged with no command. Otherwise the frame starts as `FrameStart` says; below alpha 0.01 only the URL dialog's commands are sent, and at or above it the bars and menus follow. `HiddenDoesNothing`, `DrawKeepsInv` and `FadedControlsAreInert` prove its properties. |
| OverlaySteps.HiddenDoesNothing | source/views/player_overlay.cpp:19 | A hidden overlay changes no state and sends nothing. |
| OverlaySteps.DrawKeepsInv | source/views/player_overlay.cpp:18-51 | Every frame keeps the frame invariant. |
| OverlaySteps.FadedControlsAreInert | source/views/player_overlay.cpp:43 | When the new alpha is below 0.01, the bars and menus are not drawn. Menus, seek state and tab are unchanged, and only the URL dialog can send a command. |
| Overlay.PlayerOverlay.DrawFrameStart | source/views/player_overlay.cpp:22-43 | The URL dialog runs first if shown; then the fade target and the alpha are updated, as `FrameStart` states. |
| OverlaySteps.FrameStart | source/views/player_overlay.cpp:22-41 | Defines the start of a frame: the URL dialog step if it is open, then the fade by `FadeStep` on `HasActivity`, then the alpha by `AlphaStep` towards the new target. |
| Overlay.PlayerOverlay.UpdateFade | source/views/player_overlay.cpp:27-41 | The fade target and last-activity time follow `FadeStep`, for the activity test `HasActivity`, and the alpha follows `AlphaStep`. |
| OverlaySteps.HasActivity | source/views/player_overlay.cpp:27-29 | There is activity exactly when a menu is open, the mouse moved, or a mouse button is down. |
| OverlaySteps.FadeStep | source/views/player_overlay.cpp:31-36 | Activity sets the target to 1 and records the time. Without activity the target becomes 0 only when more than 3 s have passed since the last activity; otherwise the fade is unchanged. |
| OverlaySteps.FadeOutNeedsIdle | source/views/player_overlay.cpp:31-36 | The target drops from 1 to 0 only with no activity and more than 3 s since the last one. |
| OverlaySteps.OpenMenuKeepsControls | source/views/player_overlay.cpp:27-33 | While a menu is open, the target stays 1 and the activity time is the current time. |
| OverlaySteps.AlphaStep | source/views/player_overlay.cpp:38-41 | The alpha moves towards the target without overshooting it, and ends either on the target or at least 0.005 away from it. |
| OverlaySteps.AlphaStaysInRange | source/views/player_overlay.cpp:38-41 | With alpha and target in [0,1], the new alpha is in [0,1] and no farther from the target. |
| OverlaySteps.AlphaProgress | source/views/player_overlay.cpp:38-41 | Each frame shrinks the distance to the target by at least the factor 1 - 0.12. |
| Overlay.PlayerOverlay.DrawControls | source/views/player_overlay.cpp:45-50 | The bars are drawn first, and then each open menu, as `BarsFrame` and `MenusFrame` state. |
| Overlay.PlayerOverlay.DrawOpenMenus | source/views/player_overlay.cpp:48-50 | The menu flags, the tab and the commands become those of `MenusFrame` on the flags the buttons left. |
| Overlay.PlayerOverlay.DrawSubtitleMenuIfOpen | source/views/player_overlay.cpp:48 | An open subtitle menu runs its frame; a closed one changes nothing and sends nothing. |
| Overlay.PlayerOverlay.DrawAudioMenuIfOpen | source/views/player_overlay.cpp:49 | An open audio menu runs its frame; a closed one changes nothing and sends nothing. |
| OverlaySteps.MenusFrame | source/views/player_overlay.cpp:48-50 | Defines the menus' part of a frame: the subtitle menu, then the audio menu, each only when open, and settings closed by its close button; the commands are the subtitle menu's, then the audio menu's. `ControlsKeepInv` proves that it keeps the invariant. |
| OverlaySteps.ControlsKeepInv | source/views/player_overlay.cpp:45-50 | Drawing the bars and menus keeps the frame invariant. |
| Overlay.PlayerOverlay.DrawBars | source/views/player_overlay.cpp:222-261 | Handles the top bar, the progress bar and the control buttons, in that order, as `BarsFrame` states. |
| OverlaySteps.BarsFrame | source/views/player_overlay.cpp:45-46 | Defines the bars' part of a frame: the seek state of `SeekStep`, the menus of `ButtonMenus`, and the top bar's, the seek bar's and the buttons' commands in that order. |
| Overlay.PlayerOverlay.DrawTopBar | source/views/player_overlay.cpp:193 | The back button appends `quit`; otherwise nothing is sent. |
| OverlaySteps.TopBarCommands | source/views/player_overlay.cpp:193 | The top bar sends `quit` exactly when back is clicked, and nothing otherwise. |
| Overlay.PlayerOverlay.DrawProgressBar | source/views/player_overlay.cpp:305-338 | The seek state and the commands are those of `SeekStep`. |
| OverlaySteps.SeekStep | source/views/player_overlay.cpp:311-338 | An active bar sets seeking with the pointer fraction clamped to [0,1] and sends nothing. The first inactive frame after seeking sends one `seek <pos*duration> absolute` and clears seeking. Otherwise nothing changes. |
| OverlaySteps.DragSendsNothing | source/views/player_overlay.cpp:311-318 | Any run of active frames sends no command. It leaves the overlay seeking at the last clamped fraction. |
| OverlaySteps.SeekRunAppend | source/views/player_overlay.cpp:311-338 | Running frames `a` then `b` equals running `a + b`, for both the state and the commands. |
| OverlaySteps.DragThenRelease | source/views/player_overlay.cpp:311-338 | A drag followed by a release sends exactly one absolute seek, to the last clamped fraction, and clears seeking. |
| OverlaySteps.IdleSendsNoSeek | source/views/player_overlay.cpp:335-338 | When not seeking, inactive frames send nothing and change nothing. |
| OverlayFormat.Clamp01 | source/views/player_overlay.cpp:313 | The result lies in [0,1]. It equals the input inside that range and the nearer bound outside it. |
| OverlayFormat.DisplayedProgressInRange | source/views/player_overlay.cpp:273-276 | While seeking, the displayed progress is the seek position. It always lies in [0,1] when the position lies within a positive duration. |
| OverlayFormat.DisplayedProgress | source/views/player_overlay.cpp:273-276 | Defines the bar's fill: the seek position while seeking, else position over duration for a positive duration, else 0. `DisplayedProgressInRange` proves its range. |
| Overlay.PlayerOverlay.DrawControlButtons | source/views/player_overlay.cpp:347-486 | Updates the menus by `ButtonMenus` and appends `ButtonCommands`. |
| OverlaySteps.ButtonCommands | source/views/player_overlay.cpp:373-481 | Defines the bottom bar's commands: the playback buttons', then the volume slider's, then `cycle fullscreen`, in layout order. `ButtonCommandsContents` and `ButtonCommandsCount` prove what it sends. |
| OverlaySteps.PlaybackButtonCommands | source/views/player_overlay.cpp:373-405 | Defines `cycle pause`, `seek -10`, `seek 10` and `cycle mute`, each present when its button was clicked, in that order. |
| OverlaySteps.VolumeCommands | source/views/player_overlay.cpp:417-419 | Defines `set volume <n>` when the slider moved to n, and nothing otherwise. |
| Overlay.PlayerOverlay.DrawPlaybackButtons | source/views/player_overlay.cpp:373-389 | Appends the play/pause and seek commands, in button order. |
| OverlaySteps.ButtonCommandsContents | source/views/player_overlay.cpp:373-481 | The commands contain `cycle pause`, `seek -10`, `seek 10`, `cycle mute` and `cycle fullscreen` exactly when each button was clicked. A moved slider sets the volume. |
| OverlaySteps.ButtonCommandsCount | source/views/player_overlay.cpp:373-419 | There is one command per clicked button, plus one for a moved volume slider. |
| Overlay.PlayerOverlay.DrawMenuButtons | source/views/player_overlay.cpp:451-473 | The menu flags become `ButtonMenus` of the old ones. |
| Overlay.PlayerOverlay.ClickMenu | source/views/player_overlay.cpp:451-473 | A menu button click sets the menu flags to `Click` of the old ones. |
| OverlaySteps.Click | source/views/player_overlay.cpp:451-473 | A click flips the clicked menu and closes the other two, so at most one menu is open. |
| OverlaySteps.ClickTwice | source/views/player_overlay.cpp:451-473 | Clicking the same button twice restores that menu's flag and leaves the others closed. From closed, it returns to all closed. |
| OverlaySteps.ClicksKeepAtMostOne | source/views/player_overlay.cpp:451-473 | After any click sequence at most one menu is open, given at most one at the start. |
| OverlaySteps.ClicksLastWins | source/views/player_overlay.cpp:451-473 | After a click sequence, only the last clicked menu can be open. |
| OverlaySteps.ButtonMenus | source/views/player_overlay.cpp:451-473 | The menu buttons keep at most one menu open; with no menu button clicked the menus are unchanged. |
| OverlayFormat.VolumeIconFor | source/views/player_overlay.cpp:396-400 | The icon is mute exactly when muted. Otherwise it is up for volume > 60, down for 20 < volume <= 60, and off for volume <= 20. |
| OverlayFormat.VolumeIconMonotone | source/views/player_overlay.cpp:398-400 | A louder volume never shows a quieter icon. |
| OverlayFormat.WholeSeconds | source/views/player_overlay.cpp:428-431 | A negative time counts as 0; otherwise the result is the whole seconds of the time. |
| OverlayFormat.ClockOf | source/views/player_overlay.cpp:429-431 | m and s lie in [0,60), and h*3600 + m*60 + s equals the whole seconds. |
| OverlayFormat.FormatTimeRoundTrip | source/views/player_overlay.cpp:427-433 | Reading the text back gives the whole seconds. The text has three `:` fields when h > 0 and two otherwise, and the minute and second fields have two digits. |
| OverlayFormat.FormatTime | source/views/player_overlay.cpp:427-433 | Defines the clock text: `h:mm:ss` when h > 0, else `m:ss`, from `ClockOf`. `FormatTimeRoundTrip` proves that it reads back as the whole seconds. |
| OverlayFormat.ClockFieldsSplit | source/views/player_overlay.cpp:432 | Splitting the joined fields at `:` gives the fields back. |
| OverlayFormat.ClockTextRoundTrip | source/views/player_overlay.cpp:432 | The text of a clock reads back as its total seconds, with the field count and widths of `h:mm:ss` / `m:ss`. |
| OverlayFormat.ReadClockFields | source/views/player_overlay.cpp:432 | A text that splits into a clock's fields reads back as the clock's total seconds. |
| OverlayFormat.ParseHms | source/views/player_overlay.cpp:432 | Three digit fields read as h*3600 + m*60 + s. |
| OverlayFormat.ParseMs | source/views/player_overlay.cpp:432 | Two digit fields read as m*60 + s. |
| Text.Pad2 | source/views/player_overlay.cpp:432 | The `{:02d}` field has the number's value, and two digits below 100. |
| Text.ZeroPad | source/views/player_overlay.cpp:432 | Padding keeps the digits' value and widens to the requested width. |
| OverlayFormat.ShownTitle | source/views/player_overlay.cpp:203-204 | An empty media title is shown as `PlayTorrio`; any other title is shown as it is. |
| OverlayFormat.FitTitle | source/views/player_overlay.cpp:209-213 | A title that is too wide, with fitted length `len` > 3, becomes its first `len - 3` characters plus `...`. Otherwise it is unchanged. |
| OverlayFormat.ShortTabName | source/views/player_overlay.cpp:553-554 | Names of up to 12 characters are unchanged. Longer ones become their first 11 characters plus `..`. |
| OverlayFormat.TabLabels | source/views/player_overlay.cpp:531-560 | The tabs are `Embedded` plus the shortened names of at most the first two providers, in order. |
| OverlaySteps.SelectTab | source/views/player_overlay.cpp:542-557 | A click on tab k (0 to the number of provider tabs) selects k. Without a click, the tab is kept. |
| OverlayFormat.Listed | source/views/player_overlay.cpp:580-581 | Exactly the tracks of the given type are listed. |
| OverlayFormat.ListedAppend | source/views/player_overlay.cpp:580-581 | Listing is a filter: one more track adds itself exactly when its type matches. |
| OverlayFormat.TrackLabel | source/views/player_overlay.cpp:584-585 | The label is the title, or `Track <id>` when the title is empty. `  [lang]` is appended when lang is non-empty. |
| OverlayFormat.CurrentIsOneId | source/views/player_overlay.cpp:587 | The selected test compares the current sid/aid with the track id as text, so it marks at most one id. |
| OverlayFormat.IsCurrent | source/views/player_overlay.cpp:587 | Defines the selected mark: the current sid/aid text equals the track id's decimal text. `CurrentIsOneId` and `NoSelectsNothing` prove its properties. |
| OverlayFormat.NoSelectsNothing | source/views/player_overlay.cpp:587 | With sid `no`, no track is marked selected. |
| OverlayFormat.TrackRows | source/views/player_overlay.cpp:580-590 | One row per listed track, in order, with its label and its selected mark. |
| OverlayFormat.TrackRowsAppend | source/views/player_overlay.cpp:580-590 | One more track adds one row when its type matches, and none otherwise. |
| OverlayFormat.TrackRowsEmpty | source/views/player_overlay.cpp:594-596 | The list is empty exactly when no track has the type, which is when the "No embedded subtitles" text shows. |
| OverlayFormat.TrackMenuRows | source/views/player_overlay.cpp:579-592 | The loop builds the rows of `TrackRows` and its `hasEmbedded`/`hasAudio` flag says whether a track of the type exists. |
| OverlaySteps.TrackClick | source/views/player_overlay.cpp:590 | A click on a listed row sets the property to that track's id. There is at most one command, and one only for a row in range. |
| OverlaySteps.ExternalClick | source/views/player_overlay.cpp:619-623 | A click on a provider's subtitle sends `sub-add <url> select` for that subtitle. There is at most one command. |
| Overlay.PlayerOverlay.DrawSubtitleMenu | source/views/player_overlay.cpp:489-657 | The menu flag, the tab and the commands are those of `SubtitleMenuStep`. |
| Overlay.PlayerOverlay.DrawSubtitleList | source/views/player_overlay.cpp:568-636 | Appends the commands of the selected tab's list. |
| OverlaySteps.SubtitleListCommands | source/views/player_overlay.cpp:568-636 | Defines the list's commands: on the embedded tab, the track click's `set sid`; on a provider tab, the subtitle click's `sub-add`. `EmbeddedTrackSelected` and `ProviderSubtitleAdded` prove them. |
| OverlaySteps.SubtitleMenuStep | source/views/player_overlay.cpp:489-657 | The tab follows `SelectTab`. The menu stays open unless closed or the subtitle file is loaded. |
| OverlaySteps.ProviderSubtitleAdded | source/views/player_overlay.cpp:607-636 | On provider tab k, clicking a subtitle sends exactly `sub-add <url> select` for it. |
| OverlaySteps.EmbeddedTrackSelected | source/views/player_overlay.cpp:573-601 | On the embedded tab, clicking a listed subtitle track sends exactly `set sid <id>`. |
| Overlay.PlayerOverlay.OpenSubtitleFile | source/views/player_overlay.cpp:921-930 | Closes the subtitle menu and appends `SubtitleFileCommands`. |
| OverlaySteps.SubtitleFileCommands | source/views/player_overlay.cpp:921-930 | The dialog is bracketed by `pause yes` and `pause no`. A picked file is added in between with `sub-add <path> select`; a cancelled dialog adds nothing. |
| Overlay.PlayerOverlay.DrawAudioMenu | source/views/player_overlay.cpp:660-737 | The menu flag and the commands are those of `AudioMenuStep`. |
| OverlaySteps.AudioMenuStep | source/views/player_overlay.cpp:660-737 | The menu stays open unless closed. A click on a listed audio track sets `aid` to its id. |
| Overlay.PlayerOverlay.DrawSettingsMenu | source/views/player_overlay.cpp:770 | The close button closes the settings menu. |
| Overlay.PlayerOverlay.OpenURL | source/views/player_overlay.cpp:942-1025 | The dialog state and the commands are those of `UrlStep`. |
| OverlaySteps.UrlStep | source/views/player_overlay.cpp:994-1015 | Cancel closes and clears the buffer with no command. Play or Enter with a non-empty buffer sends exactly one `loadfile <url>`, then clears and closes. An empty buffer loads nothing. |
| OverlaySteps.UrlFrame | source/views/player_overlay.cpp:22 | A closed dialog changes nothing and sends nothing. |
| Overlay.PlayerOverlay.OpenMediaFile | source/views/player_overlay.cpp:932-940 | A picked file is loaded with `loadfile`; a cancelled dialog sends nothing. |
| Overlay.PlayerOverlay.DrawIdleScreen | source/views/player_overlay.cpp:53-156 | The state and the commands are those of `IdleSpec`. |
| OverlaySteps.IdleSpec | source/views/player_overlay.cpp:60-140 | The dialog runs if shown. "Open URL" opens the dialog. The menus, seek state and visibility are untouched. |
| OverlaySteps.IdleKeepsInv | source/views/player_overlay.cpp:53-156 | The idle screen keeps the frame invariant. |
| MediaFiles.LastIndexSpec | source/player.cpp:841 | The last index of a character holds it and none follows. -1 means the character does not occur. |
| MediaFiles.FileNameSpec | source/player.cpp:841 | The file name is the suffix after the last `/`. It contains no `/`. |
| MediaFiles.NameExtensionSpec | source/player.cpp:841 | A name's extension is empty, or it is a suffix of the name that starts with `.` and holds no other `.`. |
| MediaFiles.ExtensionSpec | source/player.cpp:841 | A path's extension is empty, or it is a suffix of the path that starts with `.` and holds no other `.` and no `/`. |
| MediaFiles.LastIndexAfter | source/player.cpp:841 | A separator at the end of a prefix is the last one when the rest does not contain it. |
| MediaFiles.FileNameAfter | source/player.cpp:841 | The file name of `dir/name` is `name`. |
| MediaFiles.StripDot | source/player.cpp:843 | A leading `.` is removed. |
| MediaFiles.NameExtensionOfParts | source/player.cpp:841 | The extension of `base.e` is `.e`, for a non-empty base. |
| MediaFiles.ExtensionOfName | source/player.cpp:841 | The extension of `dir/base.e` is `.e`. |
| MediaFiles.Extension | source/player.cpp:841 | Defines a path's extension as that of its file name. `ExtensionSpec` proves its shape. |
| MediaFiles.ClassifyByExtension | source/player.cpp:840-856 | `dir/base.e` is a media file exactly when `e` is in the video, audio or image list. It is a subtitle file exactly when `e` is in the subtitle list. |
| MediaFiles.IsMediaFile | source/player.cpp:840-848 | Defines a media file: a non-empty extension whose text after the dot is in the video, audio or image list. `ClassifyByExtension` proves the test. |
| MediaFiles.IsSubtitleFile | source/player.cpp:850-856 | Defines a subtitle file: a non-empty extension whose text after the dot is in the subtitle list. `ClassifyByExtension` proves the test. |
| MediaFiles.NoDotNoType | source/player.cpp:842 | A file name without a `.` has an empty extension, so it is neither media nor subtitle. |
| MediaFiles.HiddenFileNoType | source/player.cpp:842 | A name such as `.srt` has no extension, so it is neither media nor subtitle. |
| Controller.Player.constructor | source/player.cpp:791 | The player holds the given engine, overlay and file types. The URL buffer starts empty, as the zero-initialised `url` buffer does. The URL dialog and message dialog flags, the aspect lock and the metrics flag start false or none; their defaults are declared outside the modelled files and are assumed. |
| Controller.Player.OpenDvd | source/player.cpp:705-708 | Sets `dvd-device` to the path, then loads `dvd://`. |
| Controller.Player.OpenBluray | source/player.cpp:710-713 | Sets `bluray-device` to the path, then loads `bd://`. |
| Loading.DiscCommands | source/player.cpp:705-713 | Defines the disc commands: the device option set to the path, then `loadfile bd://` or `dvd://`. |
| Controller.Player.Load | source/player.cpp:745-780 | The commands appended are those of `LoadRun`, the fold of `LoadStep` over the paths. |
| Controller.Player.LoadPath | source/player.cpp:747-778 | One path: the commands and counter of one `LoadStep`, and whether the loop breaks. |
| Controller.Player.LoadFolder | source/player.cpp:756-763 | A walked folder loads its media entries in walk order. Each entry is loaded with the action for its counter value, and the counter advances once per entry. |
| Loading.KindOf | source/player.cpp:748-771 | Defines how `load` treats a path: a directory is a disc when opening a disc and a folder otherwise; else `.iso` is a disc image, then a subtitle, then any other file. |
| Loading.LoadAction | source/player.cpp:759 | Defines the loadfile flag: `append` when appending, else `append-play` after the first and `replace` for it. |
| Loading.FileCommand | source/player.cpp:771-776 | Defines one plain path's command: `sub-add` with the subtitle mode, or `loadfile` with the flag for its counter. |
| Loading.LoadStep | source/player.cpp:747-778 | Defines one turn of the loop: nothing after a stop; a disc sends its commands and stops; a folder loads its media entries and counts them; a plain file sends one command and counts one. |
| Loading.Kinds | source/player.cpp:747-771 | Defines the list of path kinds that `Run` folds over: one `KindOf` per path, in order. It is a reference definition, and `LoadRun` and the `Run` lemmas state the promises. |
| Loading.Run | source/player.cpp:746-779 | Defines the loop as a fold of `LoadStep` over the paths from an empty state. `RunFlags`, `RunFirstDisc` and `CountIsLength` prove its properties. |
| Loading.LoadRun | source/player.cpp:745-780 | Defines `load` as `Run` over the paths' kinds. `LoadFlagsByPosition`, `FirstDiscStops` and `PlainFilesOneEach` prove its properties. |
| Loading.MediaFlagAt | source/player.cpp:758 | Flag m says whether entry m is a media file. |
| Loading.KeepMembers | source/player.cpp:756-763 | The kept entries are exactly those with a set flag. |
| Loading.MediaEntriesMembers | source/player.cpp:756-763 | A folder's loaded entries are exactly its entries that are media files. |
| Loading.FolderCommandsAt | source/player.cpp:759-760 | Entry k of a folder is loaded with the action for counter i + k. |
| Loading.RunFolder | source/player.cpp:756-763 | One folder sends its media entries' loadfiles and counts them, and does not stop. |
| Loading.FolderLoadsItsMedia | source/player.cpp:756-763 | A folder loads its media entries, in order, and nothing else; entry k gets the action for k. |
| Loading.CountIsLength | source/player.cpp:746-778 | Until a disc stops the loop, the counter `i` equals the number of commands sent. |
| Loading.LoadFlagsByPosition | source/player.cpp:759-775 | Every `loadfile` carries the action for its position. It is `append` when appending, else `replace` at position 0 and `append-play` after. Every `sub-add` carries `auto` when appending, else `select`. |
| Loading.ReplaceOnlyFirst | source/player.cpp:759-775 | Without append, only the first command can be a `replace`; every later loadfile is `append-play`. |
| Loading.RunFlags | source/player.cpp:746-778 | The fold keeps the action-by-position property. |
| Loading.FirstDiscStops | source/player.cpp:748-770 | The first disc folder or ISO image ends the load. The commands are those of the paths before it, then the disc commands. A Blu-ray is a folder with `BDMV` or an ISO over 4.7 GB; anything else is a DVD. |
| Loading.RunFirstDisc | source/player.cpp:748-770 | The same, for the fold over precomputed path kinds. |
| Loading.NothingAfterStop | source/player.cpp:754-770 | After the break, the remaining paths change nothing. |
| Loading.NoDiscNoStop | source/player.cpp:748-778 | Without a disc, the loop runs to the end. |
| Loading.PlainFilesOneEach | source/player.cpp:771-777 | Paths that are neither folders nor ISO images send one command each. A subtitle gets `sub-add`, any other file gets `loadfile` with the action for its position. |
| Loading.RunPlainFilesLength | source/player.cpp:771-777 | Plain files keep the loop going and send one command each. |
| Controller.Player.LoadPicked | source/player.cpp:676-692 | A file dialog pauses playback and then resumes it, loading the chosen paths in between. A cancelled dialog loads nothing. (`load` is modelled as never throwing; see Left out.) |
| Controller.Player.OpenClipboard | source/player.cpp:694-701 | Appends `ClipboardCommands` of the clipboard text. |
| PlayerRules.ClipboardCommands | source/player.cpp:694-701 | An empty clipboard sends nothing. Otherwise the trimmed text is loaded and shown, with the same string in both commands. |
| Text.TrimIsSlice | source/player.cpp:697 | The trimmed text is a slice of the input with only whitespace before and after it. |
| Controller.Player.PlaylistSort | source/player.cpp:715-743 | The commands appended are those of `PlaylistSortCommands` for the engine's playlist, current entry, time and playing state. |
| Controller.Player.Reload | source/player.cpp:726-742 | Finds the current entry, builds the list and appends the commands of `ReloadCommands`: start entry, start time, a clear when not playing, and the `loadlist`. |
| PlayerRules.PlaylistSortEffect | source/player.cpp:715-743 | An empty playlist sends nothing. Otherwise it sends 3 commands while playing and 4 when not, and `playlist-start` is the index of the current entry in the new order. That index is -1 exactly when no entry has the current id, and it reads back as a number. The last command is a `loadlist`. When no title or path holds a newline and no path starts with `#EXTINF:-1,`, its memory text reads back as the new order's titles and paths. |
| PlayerRules.PlaylistSortCommands | source/player.cpp:715-743 | Defines the commands of `playlistSort`: none for an empty playlist, otherwise `ReloadCommands` of `SortedOrder`. `PlaylistSortEffect` proves what they do. |
| PlayerRules.ReloadCommands | source/player.cpp:738-742 | Defines the reload: `playlist-start`, `start +t`, `playlist-clear` when not playing, then `loadlist` of `MemoryList` with `replace` while playing and `append` otherwise. |
| PlayerRules.SortedOrder | source/player.cpp:717-723 | Defines the new order: `SortItems`, reversed when asked. `SortedOrderCorrect` proves it a sorted permutation. |
| PlayerRules.SortItems | source/player.cpp:718-722 | Defines the sort by insertion under the comparator on title-or-filename. `SortItemsAscending` and `SortItemsPermutes` prove it sorts. |
| PlayerRules.SortedOrderCorrect | source/player.cpp:717-723 | The new order is a permutation of the playlist: ascending by title-or-filename under the comparator, or descending when reversed. |
| PlayerRules.SortedCopy | source/player.cpp:717-723 | The copied, sorted and optionally reversed items are `SortedOrder`. |
| PlayerRules.SortItemsAscending | source/player.cpp:718-722 | Sorting gives an ascending sequence for a strict order. |
| PlayerRules.SortItemsPermutes | source/player.cpp:718-722 | Sorting keeps the same items. |
| PlayerRules.InsertPermutes | source/player.cpp:718-722 | Insertion adds exactly the inserted item. |
| PlayerRules.InsertAscending | source/player.cpp:718-722 | Insertion into an ascending sequence keeps it ascending. |
| PlayerRules.ReverseInPlace | source/player.cpp:723 | The array's contents become their reverse. |
| PlayerRules.ReverseAt | source/player.cpp:723 | Element k of the reverse is element n-1-k. |
| PlayerRules.ReversePermutes | source/player.cpp:723 | Reversing keeps the same items. |
| PlayerRules.PosOf | source/player.cpp:726-732 | The position is the first index whose id equals the current id, or -1 when there is none. |
| PlayerRules.FindPos | source/player.cpp:726-732 | The search loop with its break finds `PosOf`. |
| PlayerRules.BuildM3U | source/player.cpp:733-737 | The loop builds `#EXTM3U`, then for each item `#EXTINF:-1,<title>` when the title is non-empty, followed by its path. |
| PlayerRules.M3URoundTrip | source/player.cpp:733-741 | The newline-joined list reads back as the items' titles and paths, in order, when no title or path holds a newline and no path starts with `#EXTINF:-1,`. The reader is this model's own; mpv's parser, which skips other `#` lines as comments, is not modelled. |
| PlayerRules.M3ULines | source/player.cpp:733-737 | Defines the list's lines: `#EXTM3U`, then per item an `#EXTINF:-1,<title>` line for a non-empty title and its path line. `BuildM3U` is held to it. |
| PlayerRules.MemoryList | source/player.cpp:741 | Defines the `loadlist` text: `memory://` and the lines joined with newlines. `M3URoundTrip` proves what it reads back as. |
| PlayerRules.NewlineTitleSplitsEntry | source/player.cpp:733-741 | A title holding a newline is written as two lines. One item titled `a\nb` with path `p` reads back as two entries, (`a`, `b`) and (no title, `p`), and not as the item. |
| PlayerRules.ReadItemLines | source/player.cpp:734-737 | The item lines read back as the items' (title, path) entries. |
| PlayerRules.Entries | source/player.cpp:734-737 | Defines the (title, path) entry of each item, in order. It is the reference that `M3URoundTrip` and `ReadItemLines` compare the read-back against. |
| PlayerRules.WritablePermutation | source/player.cpp:717-723 | Reordering keeps every title and path writable to the list. |
| Text.SplitJoin | source/player.cpp:741 | Splitting the joined lines at the separator gives them back when no line contains it. |
| Text.IntToStringRoundTrip | source/player.cpp:738-739 | A number's decimal text reads back as the number. |
| Text.IntToStringInjective | source/views/player_overlay.cpp:587 | Different ids have different texts. |
| Text.FixedPointRoundTrip | source/views/player_overlay.cpp:336 | The six-decimal text of a seek time reads back within half a millionth. |
| Controller.Player.Execute | source/player.cpp:630-674 | Appends the commands of the dispatched action. Sets the URL flag only for `open-url` and the metrics flag only for `metrics`. `show-message` sets the dialog's title and text and opens it; any other command leaves the dialog alone. |
| PlayerRules.DispatchKnownNames | source/player.cpp:631-670 | No arguments, and unknown names, do nothing. Every known name acts, except `show-message` with fewer than two arguments after it, which does nothing. |
| PlayerRules.Dispatch | source/player.cpp:631-670 | Defines the action each command name selects, with `playlist-sort true` reversing and `show-message` needing two arguments. `DispatchKnownNames` proves which names act. |
| PlayerRules.ActionCommands | source/player.cpp:634-692 | Defines each action's engine commands: a dialog bracketed by pause, the clipboard, sort and play-pause rules, and nothing for the rest. `ActionCommandsShape` proves their shape. |
| PlayerRules.ActionCommandsShape | source/player.cpp:634-692 | Every file or folder dialog pauses before and resumes after, with `load` modelled as never throwing; a cancelled one loads nothing. The URL, config-dir, metrics and message actions send nothing to the engine. |
| Controller.Player.PlayPause | source/player.cpp:645-659 | Appends `PlayPauseCommands` for the engine's playlist count. |
| PlayerRules.PlayPauseCommands | source/player.cpp:645-659 | Defines play-pause: `cycle pause` with a playlist, else the first playable recent file loaded under its title, else nothing. `PlayPauseFallback` proves it. |
| PlayerRules.PlayPauseFallback | source/player.cpp:647-658 | With a playlist, pause is cycled. Otherwise the first recent file that exists or contains `://` is loaded with `loadfile <path>`, followed by `set force-media-title <title>` for that same file; nothing is loaded when none qualifies. |
| PlayerRules.FirstPlayable | source/player.cpp:651-656 | The index of the first playable recent file, or -1 when none is playable. |
| PlayerRules.FindPlayable | source/player.cpp:651-656 | The loop with its break finds `FirstPlayable`. |
| Controller.Player.MessageBox | source/player.cpp:834-838 | Stores the title and message and opens the dialog. |
| Controller.Player.DrawDialog | source/player.cpp:817-832 | The dialog stays open until OK or its close button. |
| Controller.Player.DrawOpenURL | source/player.cpp:782-815 | The flag, the buffer and the commands are those of `OpenUrlStep`. |
| PlayerRules.OpenUrlStep | source/player.cpp:782-815 | A closed dialog does nothing. The close button closes it and keeps the buffer. Otherwise exactly one `loadfile <url>` is sent when the buffer is non-empty and Enter or OK was used. The dialog stays open only without Escape, Cancel or a load, and the buffer is cleared whenever it closes. |
| Controller.Player.OnScrollEvent | source/player.cpp:519-522 | Appends one `keypress` per nonzero axis, horizontal first. |
| PlayerRules.ScrollKeys | source/player.cpp:519-522 | One key per nonzero axis. |
| PlayerRules.ScrollKeysDirections | source/player.cpp:519-522 | The keys give back the sign of each axis: `WHEEL_LEFT`/`WHEEL_RIGH` for x > 0 / x < 0 and `WHEEL_UP`/`WHEEL_DOWN` for y > 0 / y < 0. A horizontal key always comes first. |
| PlayerRules.KeyPresses | source/player.cpp:524 | Defines one `keypress <name>` command per key, in order. It is a reference definition; `OnScrollEvent` is held to it and `ScrollKeysDirections` states what the keys mean. |
| PlayerRules.TruncDiv | source/player.cpp:411-414 | C++ integer division truncates toward zero. |
| Controller.Player.RestoreState | source/player.cpp:408-423 | The window gets `RestoredGeometry`. |
| PlayerRules.DefaultGeometryCentred | source/player.cpp:411-414 | The default size is at least 600×400 and at least 40% of the monitor. The window is centred, with margins that differ by at most one. |
| PlayerRules.DefaultGeometry | source/player.cpp:411-414 | Defines the default window: 40% of the monitor, at least 600×400, placed at half the leftover with C++ division. `DefaultGeometryCentred` proves it centred. |
| PlayerRules.RestoredGeometry | source/player.cpp:411-420 | With saving on, each saved value replaces its default on its own condition: W > 0, H > 0, X >= 0, Y >= 0. With saving off, the defaults stand. |
| PlayerRules.RestoreWithoutSaved | source/player.cpp:415-420 | With saving off or nothing saved, the window opens at its default geometry. |
| PlayerRules.RestoreSaved | source/player.cpp:415-420 | A fully saved geometry is restored as saved. |
| Controller.Player.UpdateWindowState | source/player.cpp:537-550 | The window gets `ResizedGeometry`. The aspect ratio is locked to the video's size when both dimensions are positive and both keepaspect options are on. |
| PlayerRules.ResizeKeepsCentre | source/player.cpp:540-546 | The window changes exactly when both dimensions are positive, differ from the window's, and auto-resize is on. It then takes the video's size, and its centre moves by at most half a pixel. |
| PlayerRules.ResizedGeometry | source/player.cpp:540-546 | Defines the resize: with both video dimensions positive, a size change and auto-resize on, the window takes the video's size and moves by half the change; otherwise it is kept. `ResizeKeepsCentre` proves the centre stays. |
| Controller.Player.SetExternalSubtitleProviders | source/player.cpp:154-168 | The overlay's provider list holds the given providers, in order, with their names and their subtitles' (name, url) pairs. Nothing else in the overlay changes. |
| PlayerRules.CopyProviders | source/player.cpp:155-166 | The copy loop keeps the number, order, names and subtitles of the providers. |
| PlayerRules.CopySubtitles | source/player.cpp:159-164 | The inner loop keeps each subtitle's name and url, in order. |
| PlayerRules.SameProvidersUnique | source/player.cpp:154-167 | The copy is fully determined by its input: nothing is added, dropped or reordered. |

## Left out

- ImGui layout, colours, fonts, draw-list geometry and the decorative part of the idle screen are not modelled. Each frame's clicks, drags, key presses and typed text are inputs.
- The mpv engine is not modelled. Its options in `Player::init`, the asynchronous observers, rendering, OpenGL, font loading and `writeMpvConf` are left out. The engine fields the player reads are set by the environment.
- Filesystem and OS calls are inputs:
  - `is_directory`, `exists(BDMV)`, `file_size` and the recursive walk's entries are fields of `Loading.FileInfo`;
  - the NFD dialogs' results, the clipboard, the recent files and which of them exist are fields of `PlayerRules.Host`;
  - the monitor and window sizes are parameters.
- `strnatcasecmp` is a comparator parameter `less`, required to be a strict order.
  - PlayerRules.SortItemsAscending: the sort is an insertion sort on values. It is stable, while `std::sort` is not, so the order among items with equal keys may differ from the source's.
- File paths use `/` as their only separator. `std::filesystem::path::extension` is modelled from its last `/` and last `.`, and other platforms' separators are not modelled.
- Loading.FirstDiscStops: the ISO threshold `size / 1000 / 1000 / 1000 > 4.7` is computed in double precision in the source. The model uses the exact integer test `size > 4_700_000_000`, so a size within rounding of the threshold may fall on a different side.
- Exceptions are not modelled, and neither is the "Error" message box that `execute` shows when a handler throws. In the source, `load` can throw from `file_size` (source/player.cpp:766) or from the directory walk (source/player.cpp:756). Such an exception leaves `openFileDlg`, `openFilesDlg` or `openFolderDlg` before their `set pause no` (source/player.cpp:679, 685, 691), so playback stays paused. The model's `load` always returns, so `Controller.Player.LoadPicked` and `PlayerRules.ActionCommandsShape` always end with `set pause no`.
- Overlay.PlayerOverlay.constructor: the initial `selectedProviderTab` of 0 is assumed, since no file of the program initialises `m_selectedProviderTab`.
- Controller.Player.constructor: the initial values of `openURL`, `dialog`, `aspect` and `metricsShown` are declared outside the modelled files. They are assumed to be false or none.
- `open-config-dir` is an OS call and sends nothing to the engine. The model records the action and sends nothing.
- The metrics view is only a flag, `metricsShown`.
- The fixed buffer sizes of the URL text boxes (256 and 2048 bytes) are not modelled; the text is unbounded.
- Controller.Player.UpdateWindowState: the narrowing of the engine's 64-bit `dwidth`/`dheight` to `int` is not modelled.
- The float arithmetic of the alpha lerp is modelled on exact reals, and float rounding is not modelled.
- OverlayFormat.WholeSeconds: `formatTime` divides doubles and casts to `int`; the model uses exact reals, and int overflow for huge times is not modelled.
- OverlayFormat.ShortTabName: the model counts characters. The source's `std::string` `length` and `substr` count UTF-8 bytes. So a non-ASCII name is measured and cut by bytes there: an 8-letter Cyrillic name (16 bytes) is cut after 11 bytes, possibly inside a character, where the model keeps it whole.
- OverlayFormat.FitTitle: the model counts characters. The source's `length` and `substr(0, len - 3)` count UTF-8 bytes, so a non-ASCII title is cut by bytes there, possibly inside a character.
- PlayerRules.M3URoundTrip: holds only for titles and paths without a newline and for paths that do not start with `#EXTINF:-1,`. A title with a newline makes the written list read back as different entries, as `PlayerRules.NewlineTitleSplitsEntry` shows. The list is read back by this model's own reader; mpv's M3U parser is not modelled.
- The title's fitted length `len` comes from text-width measurement; it is an input of `OverlayFormat.FitTitle`. The tab width is not modelled.
- `std::to_string` of a double is modelled as six-decimal fixed point of the exact real, rounded half up. The source's `%f` rounds the exact binary value to nearest with ties to even, so an exact tie differs: 0.0078125 prints as `0.007812` there and as `0.007813` in the model.
- Overlay.PlayerOverlay.DrawSettingsMenu: only the close button is modelled. The speed, aspect, hardware-decoding, loop, cache and subtitle-style controls and their float formatting are left out.
- `CmdSubtitleProvider` and `CmdSubtitle` are declared outside source/player.cpp, source/views/player_overlay.cpp and include/views/player_overlay.h. They are taken to hold a name with a subtitle list, and a name with a url, as their use in `setExternalSubtitleProviders` (source/player.cpp:154-168) shows.
- include/views/player_overlay.h does not declare `setExternalProviders`, `m_targetAlpha`, `m_externalProviders` or `m_selectedProviderTab`. The model takes them from their use in source/views/player_overlay.cpp, and `setExternalProviders` from its call at source/player.cpp:167. None of the program's files gives `m_selectedProviderTab` an initial value; the overlay's constructor assumes 0, the Embedded tab.
- In `drawOpenURL`, the popup's own close button makes `BeginPopupModal` return false, so that frame leaves the buffer as it is.
- `playlistSort` compares `playlistPos` with each entry's `id`, as written.
- `onCursorEvent`, `onKeyDownEvent`, `onKeyUpEvent` and `onDropEvent` are not modelled. They pass their input to the engine, and the drop handler calls `load` after sorting.
- source/main.cpp is not part of this model: logging, console setup, the headless event loop and IPC.
