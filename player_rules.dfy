/**
 * The decisions of the player controller that do not depend on the window
 * system or the engine's threads: which wheel keys a scroll sends, the window
 * geometry on start-up and after a video reconfiguration, the order and text
 * of a sorted playlist, and which action a client-message command names.
 */
module PlayerRules {
  import opened Wrappers
  import opened Text
  import opened Engine
  import opened MediaFiles
  import opened Loading
  import opened OverlaySteps

  // ---------------------------------------------------------------------
  // Scrolling
  // ---------------------------------------------------------------------

  /** The key a horizontal scroll presses; "WHEEL_RIGH" is the spelling the player sends. */
  function HorizontalKey(x: real): seq<string>
  {
    if x == 0.0 then [] else if x > 0.0 then ["WHEEL_LEFT"] else ["WHEEL_RIGH"]
  }

  function VerticalKey(y: real): seq<string>
  {
    if y == 0.0 then [] else if y > 0.0 then ["WHEEL_UP"] else ["WHEEL_DOWN"]
  }

  /** Player::onScrollEvent: the horizontal key first, then the vertical one. */
  function ScrollKeys(x: real, y: real): (keys: seq<string>)
    ensures |keys| == (if x != 0.0 then 1 else 0) + (if y != 0.0 then 1 else 0)
  {
    HorizontalKey(x) + VerticalKey(y)
  }

  /** The sign of a scroll offset: -1, 0 or 1. */
  function Sign(x: real): int
  {
    if x > 0.0 then 1 else if x < 0.0 then -1 else 0
  }

  function KeySign(k: string): int
  {
    if k == "WHEEL_LEFT" || k == "WHEEL_UP" then 1 else -1
  }

  predicate IsHorizontal(k: string)
  {
    k == "WHEEL_LEFT" || k == "WHEEL_RIGH"
  }

  /** Recovers the direction of each axis from the keys sent. */
  function ScrollSigns(keys: seq<string>): (int, int)
  {
    if keys == [] then (0, 0)
    else if |keys| == 1 then (if IsHorizontal(keys[0]) then (KeySign(keys[0]), 0) else (0, KeySign(keys[0])))
    else (KeySign(keys[0]), KeySign(keys[1]))
  }

  /**
   * The keys sent say exactly in which direction each axis moved: an axis
   * that did not move sends nothing, and the horizontal key comes first.
   */
  lemma ScrollKeysDirections(x: real, y: real)
    ensures ScrollSigns(ScrollKeys(x, y)) == (Sign(x), Sign(y))
    ensures forall k :: k in ScrollKeys(x, y) && IsHorizontal(k) ==> x != 0.0 && k == ScrollKeys(x, y)[0]
  {
  }

  // ---------------------------------------------------------------------
  // Window geometry
  // ---------------------------------------------------------------------

  /** C++ integer division, which truncates toward zero. */
  function TruncDiv(a: int, b: int): (q: int)
    requires b > 0
    ensures a >= 0 ==> q * b <= a < q * b + b
    ensures a < 0 ==> q * b - b < a <= q * b
  {
    if a >= 0 then a / b else -((-a) / b)
  }

  /** `(int)(m * 0.4)`: forty percent of a monitor dimension, truncated. */
  function FortyPercent(m: int): int
  {
    TruncDiv(2 * m, 5)
  }

  datatype Geometry = Geometry(x: int, y: int, w: int, h: int)

  /** The saved window settings: whether saving is on, and the saved position and size. */
  datatype WindowConfig = WindowConfig(save: bool, x: int, y: int, w: int, h: int)

  /** At least 600 by 400, or forty percent of the monitor if larger, centred on it. */
  function DefaultGeometry(mw: int, mh: int): (g: Geometry)
  {
    var w := if FortyPercent(mw) > 600 then FortyPercent(mw) else 600;
    var h := if FortyPercent(mh) > 400 then FortyPercent(mh) else 400;
    Geometry(TruncDiv(mw - w, 2), TruncDiv(mh - h, 2), w, h)
  }

  /** The two margins a window of `size` at `pos` leaves on a span of `total` differ by at most one. */
  predicate Centred(pos: int, size: int, total: int)
  {
    -1 <= (total - pos - size) - pos <= 1
  }

  /** The default window is at least 600 by 400 and centred on the monitor. */
  lemma DefaultGeometryCentred(mw: int, mh: int)
    ensures var g := DefaultGeometry(mw, mh);
      g.w >= 600 && g.h >= 400 && g.w >= FortyPercent(mw) && g.h >= FortyPercent(mh)
      && Centred(g.x, g.w, mw) && Centred(g.y, g.h, mh)
  {
  }

  /** Player::restoreState: each saved value that is set replaces its default, when saving is on. */
  function RestoredGeometry(mw: int, mh: int, c: WindowConfig): (g: Geometry)
    ensures var d := DefaultGeometry(mw, mh);
      && g.w == (if c.save && c.w > 0 then c.w else d.w)
      && g.h == (if c.save && c.h > 0 then c.h else d.h)
      && g.x == (if c.save && c.x >= 0 then c.x else d.x)
      && g.y == (if c.save && c.y >= 0 then c.y else d.y)
  {
    var d := DefaultGeometry(mw, mh);
    if !c.save then d
    else Geometry(
      if c.x >= 0 then c.x else d.x, if c.y >= 0 then c.y else d.y,
      if c.w > 0 then c.w else d.w, if c.h > 0 then c.h else d.h)
  }

  /** With saving off, or nothing saved, the window opens at its default geometry. */
  lemma RestoreWithoutSaved(mw: int, mh: int, c: WindowConfig)
    requires !c.save || (c.w <= 0 && c.h <= 0 && c.x < 0 && c.y < 0)
    ensures RestoredGeometry(mw, mh, c) == DefaultGeometry(mw, mh)
  {
  }

  /** A fully saved geometry is restored as it was saved. */
  lemma RestoreSaved(mw: int, mh: int, c: WindowConfig)
    requires c.save && c.w > 0 && c.h > 0 && c.x >= 0 && c.y >= 0
    ensures RestoredGeometry(mw, mh, c) == Geometry(c.x, c.y, c.w, c.h)
  {
  }

  /**
   * Player::updateWindowState: the window takes the video's size when both
   * dimensions are known, differ from the window's, and auto-resize is on;
   * it moves by half the change so that its centre stays put.
   */
  function ResizedGeometry(g: Geometry, width: int, height: int, autoResize: bool): (r: Geometry)
  {
    if width > 0 && height > 0 && (g.w != width || g.h != height) && autoResize then
      Geometry(g.x + TruncDiv(g.w - width, 2), g.y + TruncDiv(g.h - height, 2), width, height)
    else g
  }

  /** Twice the centre of a span: a whole number even when the centre is not. */
  function Centre2(pos: int, size: int): int { 2 * pos + size }

  /**
   * A resize keeps the window's centre within half a pixel, and any other
   * frame leaves the window alone.
   */
  lemma ResizeKeepsCentre(g: Geometry, width: int, height: int, autoResize: bool)
    ensures var r := ResizedGeometry(g, width, height, autoResize);
      -1 <= Centre2(r.x, r.w) - Centre2(g.x, g.w) <= 1 && -1 <= Centre2(r.y, r.h) - Centre2(g.y, g.h) <= 1
    ensures var r := ResizedGeometry(g, width, height, autoResize);
      r != g <==> width > 0 && height > 0 && (g.w != width || g.h != height) && autoResize
    ensures var r := ResizedGeometry(g, width, height, autoResize);
      r != g ==> r.w == width && r.h == height
  {
  }

  // ---------------------------------------------------------------------
  // Sorting the playlist
  // ---------------------------------------------------------------------

  /** What a playlist entry is sorted by: its title, or its file name when untitled. */
  function SortKey(item: PlayItem): string
  {
    if item.title != "" then item.title else FileName(item.path)
  }

  /**
   * What the sort needs of the natural, case-insensitive comparison the
   * player uses (strnatcasecmp(a, b) < 0): no string precedes itself, and
   * precedence is transitive.
   */
  ghost predicate StrictOrder(less: (string, string) -> bool)
  {
    (forall a :: !less(a, a)) && (forall a, b, c :: less(a, b) && less(b, c) ==> less(a, c))
  }

  /** No entry precedes an earlier one. */
  predicate Ascending(s: seq<PlayItem>, less: (string, string) -> bool)
  {
    forall i, j :: 0 <= i < j < |s| ==> !less(SortKey(s[j]), SortKey(s[i]))
  }

  /** No entry follows an earlier one. */
  predicate Descending(s: seq<PlayItem>, less: (string, string) -> bool)
  {
    forall i, j :: 0 <= i < j < |s| ==> !less(SortKey(s[i]), SortKey(s[j]))
  }

  /** Puts `x` before the first entry that it precedes. */
  function Insert(x: PlayItem, s: seq<PlayItem>, less: (string, string) -> bool): seq<PlayItem>
    decreases |s|
  {
    if s == [] then [x]
    else if less(SortKey(x), SortKey(s[0])) then [x] + s
    else [s[0]] + Insert(x, s[1..], less)
  }

  /**
   * std::sort with the player's comparison: any ascending permutation is what
   * the library may return; this one inserts each entry in turn.
   */
  function SortItems(s: seq<PlayItem>, less: (string, string) -> bool): seq<PlayItem>
    decreases |s|
  {
    if s == [] then [] else Insert(s[0], SortItems(s[1..], less), less)
  }

  lemma {:induction false} InsertPermutes(x: PlayItem, s: seq<PlayItem>, less: (string, string) -> bool)
    ensures multiset(Insert(x, s, less)) == multiset(s) + multiset{x}
    decreases |s|
  {
    if s != [] && !less(SortKey(x), SortKey(s[0])) {
      InsertPermutes(x, s[1..], less);
      assert s == [s[0]] + s[1..];
    }
  }

  /** No entry of `s` precedes `y`. */
  predicate NoneBelow(y: PlayItem, s: seq<PlayItem>, less: (string, string) -> bool)
  {
    forall k :: 0 <= k < |s| ==> !less(SortKey(s[k]), SortKey(y))
  }

  lemma AscendingCons(y: PlayItem, s: seq<PlayItem>, less: (string, string) -> bool)
    requires NoneBelow(y, s, less) && Ascending(s, less)
    ensures Ascending([y] + s, less)
  {
    var r := [y] + s;
    forall i, j | 0 <= i < j < |r| ensures !less(SortKey(r[j]), SortKey(r[i])) {
      assert r[j] == s[j - 1];
      if i > 0 {
        assert r[i] == s[i - 1];
      }
    }
  }

  lemma AscendingTail(s: seq<PlayItem>, less: (string, string) -> bool)
    requires s != [] && Ascending(s, less)
    ensures NoneBelow(s[0], s[1..], less) && Ascending(s[1..], less)
  {
    var t := s[1..];
    forall i, j | 0 <= i < j < |t| ensures !less(SortKey(t[j]), SortKey(t[i])) {
      assert t[i] == s[i + 1] && t[j] == s[j + 1];
    }
    forall k | 0 <= k < |t| ensures !less(SortKey(t[k]), SortKey(s[0])) {
      assert t[k] == s[k + 1];
    }
  }

  lemma {:induction false} InsertNoneBelow(y: PlayItem, x: PlayItem, s: seq<PlayItem>, less: (string, string) -> bool)
    requires NoneBelow(y, s, less) && !less(SortKey(x), SortKey(y))
    ensures NoneBelow(y, Insert(x, s, less), less)
    decreases |s|
  {
    if s != [] && !less(SortKey(x), SortKey(s[0])) {
      var t := s[1..];
      assert NoneBelow(y, t, less) by {
        forall k | 0 <= k < |t| ensures !less(SortKey(t[k]), SortKey(y)) {
          assert t[k] == s[k + 1];
        }
      }
      InsertNoneBelow(y, x, t, less);
      var r := Insert(x, s, less);
      assert r == [s[0]] + Insert(x, t, less);
      forall k | 0 <= k < |r| ensures !less(SortKey(r[k]), SortKey(y)) {
        if k > 0 {
          assert r[k] == Insert(x, t, less)[k - 1];
        }
      }
    } else if s != [] {
      var r := [x] + s;
      forall k | 0 <= k < |r| ensures !less(SortKey(r[k]), SortKey(y)) {
        if k > 0 {
          assert r[k] == s[k - 1];
        }
      }
    }
  }

  lemma {:induction false} InsertAscending(x: PlayItem, s: seq<PlayItem>, less: (string, string) -> bool)
    requires StrictOrder(less) && Ascending(s, less)
    ensures Ascending(Insert(x, s, less), less)
    decreases |s|
  {
    if s == [] {
    } else if less(SortKey(x), SortKey(s[0])) {
      forall k | 0 <= k < |s| ensures !less(SortKey(s[k]), SortKey(x)) {
      }
      AscendingCons(x, s, less);
    } else {
      AscendingTail(s, less);
      InsertAscending(x, s[1..], less);
      InsertNoneBelow(s[0], x, s[1..], less);
      AscendingCons(s[0], Insert(x, s[1..], less), less);
    }
  }

  /** The sorted playlist is ascending. */
  lemma {:induction false} SortItemsAscending(s: seq<PlayItem>, less: (string, string) -> bool)
    requires StrictOrder(less)
    ensures Ascending(SortItems(s, less), less)
    decreases |s|
  {
    if s != [] {
      SortItemsAscending(s[1..], less);
      InsertAscending(s[0], SortItems(s[1..], less), less);
    }
  }

  /** std::reverse. */
  function Reverse<T>(s: seq<T>): (r: seq<T>)
    ensures |r| == |s|
    decreases |s|
  {
    if s == [] then [] else Reverse(s[1..]) + [s[0]]
  }

  lemma {:induction false} ReverseAt<T>(s: seq<T>, k: int)
    requires 0 <= k < |s|
    ensures Reverse(s)[k] == s[|s| - 1 - k]
    decreases |s|
  {
    if k < |s| - 1 {
      ReverseAt(s[1..], k);
    }
  }

  lemma {:induction false} ReversePermutes<T>(s: seq<T>)
    ensures multiset(Reverse(s)) == multiset(s)
    decreases |s|
  {
    if s != [] {
      ReversePermutes(s[1..]);
      assert s == [s[0]] + s[1..];
    }
  }

  /** The entries in the order the sorted playlist is loaded. */
  function SortedOrder(playlist: seq<PlayItem>, reverse: bool, less: (string, string) -> bool): seq<PlayItem>
  {
    var s := SortItems(playlist, less);
    if reverse then Reverse(s) else s
  }

  /**
   * The new order holds the same entries as the playlist, ascending by title
   * (or file name), and descending when reversed.
   */
  lemma SortedOrderCorrect(playlist: seq<PlayItem>, reverse: bool, less: (string, string) -> bool)
    requires StrictOrder(less)
    ensures multiset(SortedOrder(playlist, reverse, less)) == multiset(playlist)
    ensures !reverse ==> Ascending(SortedOrder(playlist, reverse, less), less)
    ensures reverse ==> Descending(SortedOrder(playlist, reverse, less), less)
  {
    var s := SortItems(playlist, less);
    SortItemsAscending(playlist, less);
    SortedOrderPermutes(playlist, reverse, less);
    if reverse {
      var r := Reverse(s);
      forall i, j | 0 <= i < j < |r| ensures !less(SortKey(r[i]), SortKey(r[j])) {
        ReverseAt(s, i);
        ReverseAt(s, j);
      }
    }
  }

  /** The copy of the playlist that playlistSort sorts and, when asked, reverses in place. */
  method SortedCopy(playlist: seq<PlayItem>, reverse: bool, less: (string, string) -> bool) returns (items: seq<PlayItem>)
    ensures items == SortedOrder(playlist, reverse, less)
  {
    var sorted := SortItems(playlist, less);
    var a := new PlayItem[|sorted|](k requires 0 <= k < |sorted| => sorted[k]);
    assert a[..] == sorted;
    if reverse {
      ReverseInPlace(a);
    }
    items := a[..];
  }

  /** The index of the first entry with this id, or -1. */
  function PosOf(items: seq<PlayItem>, id: int): (pos: int)
    ensures -1 <= pos < |items|
    ensures pos >= 0 ==> items[pos].id == id && forall k :: 0 <= k < pos ==> items[k].id != id
    ensures pos == -1 ==> forall k :: 0 <= k < |items| ==> items[k].id != id
    decreases |items|
  {
    if items == [] then -1
    else if items[0].id == id then 0
    else
      var p := PosOf(items[1..], id);
      if p == -1 then -1 else p + 1
  }

  /** The loop of playlistSort that finds the current entry in the new order. */
  method FindPos(items: seq<PlayItem>, id: int) returns (pos: int)
    ensures pos == PosOf(items, id)
  {
    pos := -1;
    var i := 0;
    while i < |items|
      invariant 0 <= i <= |items|
      invariant forall k :: 0 <= k < i ==> items[k].id != id
    {
      if items[i].id == id {
        pos := i;
        break;
      }
      i := i + 1;
    }
  }

  /** The M3U tag that carries an entry's title. */
  const ExtInf := "#EXTINF:-1,"

  /** An entry's lines: its title tag when it has a title, then its path. */
  function EntryLines(item: PlayItem): seq<string>
  {
    (if item.title != "" then [ExtInf + item.title] else []) + [item.path]
  }

  function ItemLines(items: seq<PlayItem>): seq<string>
    decreases |items|
  {
    if items == [] then [] else EntryLines(items[0]) + ItemLines(items[1..])
  }

  /** The lines of the in-memory M3U list, header first. */
  function M3ULines(items: seq<PlayItem>): seq<string>
  {
    ["#EXTM3U"] + ItemLines(items)
  }

  /** The loop of playlistSort that builds the M3U list. */
  method BuildM3U(items: seq<PlayItem>) returns (lines: seq<string>)
    ensures lines == M3ULines(items)
  {
    lines := ["#EXTM3U"];
    var i := 0;
    while i < |items|
      invariant 0 <= i <= |items|
      invariant lines + ItemLines(items[i..]) == M3ULines(items)
    {
      var item := items[i];
      assert ItemLines(items[i..]) == EntryLines(item) + ItemLines(items[i + 1..]);
      if item.title != "" {
        lines := lines + [ExtInf + item.title];
      }
      lines := lines + [item.path];
      i := i + 1;
    }
  }

  /** A title and a path, as a reader of the list sees them. */
  datatype Entry = Entry(title: string, path: string)

  function Entries(items: seq<PlayItem>): (r: seq<Entry>)
    ensures |r| == |items|
    ensures forall k :: 0 <= k < |items| ==> r[k] == Entry(items[k].title, items[k].path)
  {
    seq(|items|, k requires 0 <= k < |items| => Entry(items[k].title, items[k].path))
  }

  /** Reads M3U lines: a title tag names the path on the line after it. */
  function ReadEntries(lines: seq<string>): seq<Entry>
    decreases |lines|
  {
    if lines == [] then []
    else if ExtInf <= lines[0] && |lines| >= 2 then [Entry(lines[0][|ExtInf|..], lines[1])] + ReadEntries(lines[2..])
    else [Entry("", lines[0])] + ReadEntries(lines[1..])
  }

  /** Reads an M3U text: the header, then the entries. */
  function ReadM3U(text: string): Option<seq<Entry>>
  {
    var lines := Split(text, '\n');
    if lines[0] == "#EXTM3U" then Some(ReadEntries(lines[1..])) else None
  }

  /** Entries whose text can be written one per line and read back. */
  predicate Writable(items: seq<PlayItem>)
  {
    forall k :: 0 <= k < |items| ==> '\n' !in items[k].title && '\n' !in items[k].path && !(ExtInf <= items[k].path)
  }

  lemma {:induction false} ReadItemLines(items: seq<PlayItem>)
    requires Writable(items)
    ensures ReadEntries(ItemLines(items)) == Entries(items)
    decreases |items|
  {
    if items != [] {
      WritableTail(items);
      ReadItemLines(items[1..]);
      ReadEntryLines(items[0], ItemLines(items[1..]));
      EntriesCons(items);
    }
  }

  /** One item's lines, followed by more lines, read as its entry and then those lines' entries. */
  lemma ReadEntryLines(it: PlayItem, tail: seq<string>)
    requires !(ExtInf <= it.path)
    ensures ReadEntries(EntryLines(it) + tail) == [Entry(it.title, it.path)] + ReadEntries(tail)
  {
    if it.title != "" {
      assert EntryLines(it) + tail == [ExtInf + it.title, it.path] + tail;
      ReadTitled(it.title, it.path, tail);
    } else {
      assert EntryLines(it) + tail == [it.path] + tail;
      ReadUntitled(it.path, tail);
    }
  }

  lemma EntriesCons(items: seq<PlayItem>)
    requires items != []
    ensures Entries(items) == [Entry(items[0].title, items[0].path)] + Entries(items[1..])
  {
  }

  /** The entries after the first of a writable list are writable. */
  lemma WritableTail(items: seq<PlayItem>)
    requires items != [] && Writable(items)
    ensures Writable(items[1..])
  {
    var rest := items[1..];
    forall k | 0 <= k < |rest| ensures '\n' !in rest[k].title && '\n' !in rest[k].path && !(ExtInf <= rest[k].path) {
      assert rest[k] == items[k + 1];
    }
  }

  /** An `#EXTINF` line and the path after it read as one titled entry. */
  lemma ReadTitled(title: string, path: string, tail: seq<string>)
    ensures ReadEntries([ExtInf + title, path] + tail) == [Entry(title, path)] + ReadEntries(tail)
  {
    var lines := [ExtInf + title, path] + tail;
    assert ExtInf <= lines[0];
    assert lines[0][|ExtInf|..] == title;
    assert lines[2..] == tail;
  }

  /** A path line that is not an `#EXTINF` line reads as one untitled entry. */
  lemma ReadUntitled(path: string, tail: seq<string>)
    requires !(ExtInf <= path)
    ensures ReadEntries([path] + tail) == [Entry("", path)] + ReadEntries(tail)
  {
    assert ([path] + tail)[1..] == tail;
  }

  lemma {:induction false} ItemLinesNoNewline(items: seq<PlayItem>)
    requires Writable(items)
    ensures forall k :: 0 <= k < |ItemLines(items)| ==> '\n' !in ItemLines(items)[k]
    decreases |items|
  {
    if items != [] {
      var rest := items[1..];
      assert Writable(rest) by {
        forall k | 0 <= k < |rest| ensures '\n' !in rest[k].title && '\n' !in rest[k].path && !(ExtInf <= rest[k].path) {
          assert rest[k] == items[k + 1];
        }
      }
      ItemLinesNoNewline(rest);
      var e := EntryLines(items[0]);
      forall k | 0 <= k < |e| ensures '\n' !in e[k] {
        if items[0].title != "" && k == 0 {
          assert '\n' !in ExtInf;
        }
      }
    }
  }

  /**
   * The loaded list reads back as the sorted entries, each with its title
   * and path, in order; an entry's title tag is written only when it has a
   * title.
   */
  lemma M3URoundTrip(items: seq<PlayItem>)
    requires Writable(items)
    ensures ReadM3U(Join(M3ULines(items), '\n')) == Some(Entries(items))
  {
    var lines := M3ULines(items);
    ItemLinesNoNewline(items);
    forall k | 0 <= k < |lines| ensures '\n' !in lines[k] {
      if k > 0 {
        assert lines[k] == ItemLines(items)[k - 1];
      }
    }
    SplitJoin(lines, '\n');
    assert lines[1..] == ItemLines(items);
    ReadItemLines(items);
  }

  /**
   * A title that holds a newline is written as two lines, so the list no
   * longer reads back as the playlist: here one entry reads back as two.
   */
  lemma NewlineTitleSplitsEntry()
    ensures var item := PlayItem(1, "a\nb", "p");
      ReadM3U(Join(M3ULines([item]), '\n')) == Some([Entry("a", "b"), Entry("", "p")])
      && ReadM3U(Join(M3ULines([item]), '\n')) != Some(Entries([item]))
  {
    NewlineTitleLines();
    var text := Join(M3ULines([PlayItem(1, "a\nb", "p")]), '\n');
    var lines := ["#EXTM3U", ExtInf + "a", "b", "p"];
    var body := [ExtInf + "a", "b", "p"];
    assert lines[1..] == body;
    assert ExtInf <= body[0];
    assert body[0][|ExtInf|..] == "a";
    assert body[2..] == ["p"];
    assert !(ExtInf <= "p");
    assert ReadEntries(["p"]) == [Entry("", "p")] + ReadEntries([]);
    assert ReadEntries(body) == [Entry("a", "b")] + ReadEntries(body[2..]);
    assert ReadEntries(body) == [Entry("a", "b"), Entry("", "p")];
    assert ReadM3U(text) == Some([Entry("a", "b"), Entry("", "p")]);
    assert |Entries([PlayItem(1, "a\nb", "p")])| == 1;
  }

  /** The lines the example's list text splits into. */
  lemma NewlineTitleLines()
    ensures Split(Join(M3ULines([PlayItem(1, "a\nb", "p")]), '\n'), '\n') == ["#EXTM3U", ExtInf + "a", "b", "p"]
  {
    var item := PlayItem(1, "a\nb", "p");
    var tag := ExtInf + "a\nb";
    assert ItemLines([item]) == [tag, "p"];
    assert M3ULines([item]) == ["#EXTM3U", tag, "p"];
    assert Join([tag, "p"], '\n') == tag + ['\n'] + "p";
    var text := Join(M3ULines([item]), '\n');
    assert tag == (ExtInf + "a") + ['\n'] + "b";
    var rest := "b" + ['\n'] + "p";
    assert text == "#EXTM3U" + ['\n'] + ((ExtInf + "a") + ['\n'] + rest);
    SplitWithoutSeparator("p", '\n');
    SplitAtSeparator("b", "p", '\n');
    SplitAtSeparator(ExtInf + "a", rest, '\n');
    SplitAtSeparator("#EXTM3U", (ExtInf + "a") + ['\n'] + rest, '\n');
  }

  /** The text handed to `loadlist`. */
  function MemoryList(items: seq<PlayItem>): string
  {
    "memory://" + Join(M3ULines(items), '\n')
  }

  /**
   * Player::playlistSort: nothing for an empty playlist; otherwise the
   * start entry and time, a cleared playlist when nothing plays, and the
   * sorted list, replacing the playlist while playing and appended otherwise.
   */
  function PlaylistSortCommands(playlist: seq<PlayItem>, current: int, timePos: int, playing: bool,
                                reverse: bool, less: (string, string) -> bool): seq<Command>
  {
    if playlist == [] then []
    else ReloadCommands(SortedOrder(playlist, reverse, less), current, timePos, playing)
  }

  /** The commands that reload the playlist in the order `items`. */
  function ReloadCommands(items: seq<PlayItem>, current: int, timePos: int, playing: bool): seq<Command>
  {
    [Set("playlist-start", IntToString(PosOf(items, current))), Set("start", "+" + IntToString(timePos))]
    + (if playing then [] else [["playlist-clear"]])
    + [["loadlist", MemoryList(items), if playing then "replace" else "append"]]
  }

  /**
   * An empty playlist sends nothing; otherwise playback restarts at the
   * current entry's place in the new order (or -1 when it is not there), at
   * the current time, from a list that reads back as the new order.
   */
  lemma PlaylistSortEffect(playlist: seq<PlayItem>, current: int, timePos: int, playing: bool,
                           reverse: bool, less: (string, string) -> bool)
    ensures playlist == [] ==> PlaylistSortCommands(playlist, current, timePos, playing, reverse, less) == []
    ensures playlist != [] ==>
      var cmds := PlaylistSortCommands(playlist, current, timePos, playing, reverse, less);
      var items := SortedOrder(playlist, reverse, less);
      var pos := PosOf(items, current);
      && |cmds| == (if playing then 3 else 4)
      && cmds[0] == Set("playlist-start", IntToString(pos))
      && (pos == -1 <==> forall k :: 0 <= k < |playlist| ==> playlist[k].id != current)
      && ParseInt(cmds[0][2]) == Some(pos)
      && cmds[|cmds| - 1][0] == "loadlist"
      && (Writable(playlist) ==> ReadM3U(cmds[|cmds| - 1][1][9..]) == Some(Entries(items)))
  {
    if playlist != [] {
      var items := SortedOrder(playlist, reverse, less);
      var pos := PosOf(items, current);
      IntToStringRoundTrip(pos);
      SortedOrderPermutes(playlist, reverse, less);
      assert multiset(items) == multiset(playlist);
      if pos == -1 {
        forall k | 0 <= k < |playlist| ensures playlist[k].id != current {
          assert playlist[k] in multiset(items);
        }
      } else {
        assert items[pos] in multiset(playlist);
      }
      if Writable(playlist) {
        WritablePermutation(playlist, items);
        M3URoundTrip(items);
      }
      assert MemoryList(items)[9..] == Join(M3ULines(items), '\n');
    }
  }

  lemma SortedOrderPermutes(playlist: seq<PlayItem>, reverse: bool, less: (string, string) -> bool)
    ensures multiset(SortedOrder(playlist, reverse, less)) == multiset(playlist)
  {
    var s := SortItems(playlist, less);
    SortItemsPermutes(playlist, less);
    ReversePermutes(s);
  }

  lemma {:induction false} SortItemsPermutes(s: seq<PlayItem>, less: (string, string) -> bool)
    ensures multiset(SortItems(s, less)) == multiset(s)
    decreases |s|
  {
    if s != [] {
      SortItemsPermutes(s[1..], less);
      InsertPermutes(s[0], SortItems(s[1..], less), less);
      assert s == [s[0]] + s[1..];
    }
  }

  lemma WritablePermutation(a: seq<PlayItem>, b: seq<PlayItem>)
    requires Writable(a) && multiset(a) == multiset(b)
    ensures Writable(b)
  {
    forall k | 0 <= k < |b| ensures '\n' !in b[k].title && '\n' !in b[k].path && !(ExtInf <= b[k].path) {
      assert b[k] in multiset(a);
      var j :| 0 <= j < |a| && a[j] == b[k];
    }
  }

  // ---------------------------------------------------------------------
  // Client-message commands
  // ---------------------------------------------------------------------

  /** The file filter a dialog is opened with. */
  datatype Filter = MediaFilter | SubtitleFilter | IsoFilter

  /** What a command of `Player::execute` does. */
  datatype Action =
    | NoAction
    | OpenFiles(filter: Filter, append: bool)
    | OpenFile(filter: Filter)
    | OpenFolder(append: bool, disk: bool)
    | OpenClipboard
    | ShowUrlDialog
    | OpenConfigDir
    | SortPlaylist(reverse: bool)
    | PlayPause
    | ShowMetrics
    | ShowMessage(title: string, message: string)

  /** The names `execute` knows. */
  const CommandNames: set<string> := {
    "open", "open-folder", "open-disk", "open-iso", "open-clipboard", "open-url", "open-config-dir",
    "load-sub", "playlist-add-files", "playlist-add-folder", "playlist-sort", "play-pause", "metrics",
    "show-message"}

  /** The action a command's arguments name; the handler sees the arguments after the name. */
  function Dispatch(args: seq<string>): Action
  {
    if args == [] then NoAction
    else
      var rest := args[1..];
      match args[0]
      case "open" => OpenFiles(MediaFilter, false)
      case "open-folder" => OpenFolder(false, false)
      case "open-disk" => OpenFolder(false, true)
      case "open-iso" => OpenFile(IsoFilter)
      case "open-clipboard" => OpenClipboard
      case "open-url" => ShowUrlDialog
      case "open-config-dir" => OpenConfigDir
      case "load-sub" => OpenFiles(SubtitleFilter, false)
      case "playlist-add-files" => OpenFiles(MediaFilter, true)
      case "playlist-add-folder" => OpenFolder(true, false)
      case "playlist-sort" => SortPlaylist(|rest| > 0 && rest[0] == "true")
      case "play-pause" => PlayPause
      case "metrics" => ShowMetrics
      case "show-message" => if |rest| > 1 then ShowMessage(rest[0], rest[1]) else NoAction
      case _ => NoAction
  }

  /**
   * No arguments, or an unknown name, do nothing; every known name does
   * something, except show-message with fewer than two arguments after it.
   */
  lemma DispatchKnownNames(args: seq<string>)
    ensures args == [] ==> Dispatch(args) == NoAction
    ensures args != [] ==>
      (Dispatch(args) != NoAction <==> args[0] in CommandNames && (args[0] == "show-message" ==> |args| >= 3))
    ensures |args| >= 3 && args[0] == "show-message" ==> Dispatch(args) == ShowMessage(args[1], args[2])
  {
  }

  /** A recently played file: its path and title. */
  datatype RecentFile = RecentFile(path: string, title: string)

  /** A recent file can be played if it exists, or if its path is a URL. */
  predicate Playable(f: RecentFile, existing: set<string>)
  {
    f.path in existing || Contains(f.path, "://")
  }

  /** The index of the first playable recent file, or -1. */
  function FirstPlayable(recent: seq<RecentFile>, existing: set<string>): (k: int)
    ensures -1 <= k < |recent|
    ensures k >= 0 ==> Playable(recent[k], existing) && forall j :: 0 <= j < k ==> !Playable(recent[j], existing)
    ensures k == -1 ==> forall j :: 0 <= j < |recent| ==> !Playable(recent[j], existing)
    decreases |recent|
  {
    if recent == [] then -1
    else if Playable(recent[0], existing) then 0
    else
      var k := FirstPlayable(recent[1..], existing);
      if k == -1 then -1 else k + 1
  }

  /** The loop of the play-pause handler that looks for a recent file to play. */
  method FindPlayable(recent: seq<RecentFile>, existing: set<string>) returns (k: int)
    ensures k == FirstPlayable(recent, existing)
  {
    k := -1;
    var i := 0;
    while i < |recent|
      invariant 0 <= i <= |recent|
      invariant forall j :: 0 <= j < i ==> !Playable(recent[j], existing)
    {
      if recent[i].path in existing || Contains(recent[i].path, "://") {
        k := i;
        break;
      }
      i := i + 1;
    }
  }

  /**
   * play-pause: with a playlist it toggles pause; without one it plays the
   * first recent file that exists or is a URL, under its remembered title.
   */
  function PlayPauseCommands(playlistCount: int, recent: seq<RecentFile>, existing: set<string>): seq<Command>
  {
    if playlistCount > 0 then [["cycle", "pause"]]
    else
      var k := FirstPlayable(recent, existing);
      if k == -1 then [] else [["loadfile", recent[k].path], ["set", "force-media-title", recent[k].title]]
  }

  /**
   * Toggling pause needs a playlist; otherwise at most one file is loaded,
   * and only the first playable one.
   */
  lemma PlayPauseFallback(playlistCount: int, recent: seq<RecentFile>, existing: set<string>)
    ensures var cmds := PlayPauseCommands(playlistCount, recent, existing);
      && (playlistCount > 0 <==> cmds == [["cycle", "pause"]])
      && (playlistCount <= 0 && (exists j :: 0 <= j < |recent| && Playable(recent[j], existing)) <==>
          |cmds| == 2 && cmds[0][0] == "loadfile")
      && (|cmds| == 2 ==>
            exists k :: (0 <= k < |recent| && cmds[0] == ["loadfile", recent[k].path]
              && cmds[1] == ["set", "force-media-title", recent[k].title]
              && Playable(recent[k], existing) && forall j :: 0 <= j < k ==> !Playable(recent[j], existing)))
  {
    var cmds := PlayPauseCommands(playlistCount, recent, existing);
    var k := FirstPlayable(recent, existing);
    if playlistCount <= 0 && k != -1 {
      assert cmds[0] == ["loadfile", recent[k].path];
      assert cmds[1] == ["set", "force-media-title", recent[k].title];
    }
  }

  /** open-clipboard: a non-empty clipboard is loaded, trimmed, and shown as text. */
  function ClipboardCommands(content: string): (cmds: seq<Command>)
    ensures content == [] ==> cmds == []
    ensures content != [] ==>
              (|cmds| == 2 && |cmds[0]| == 2 && |cmds[1]| == 2
               && cmds[0][0] == "loadfile" && cmds[1][0] == "show-text"
               && cmds[0][1] == cmds[1][1] == Trim(content))
  {
    if content != "" then [["loadfile", Trim(content)], ["show-text", Trim(content)]] else []
  }

  /** A file dialog: playback is paused while it is open. */
  function Paused(cmds: seq<Command>): seq<Command>
  {
    [Set("pause", "yes")] + cmds + [Set("pause", "no")]
  }

  // ---------------------------------------------------------------------
  // What `execute` sends
  // ---------------------------------------------------------------------

  /**
   * What the outside world answers while a command runs: the paths the file
   * or folder dialog returned (None when it was cancelled), the clipboard,
   * the recent files and which paths exist, and the natural comparison.
   */
  datatype Host = Host(
    files: Option<seq<FileInfo>>,
    single: Option<FileInfo>,
    clipboard: string,
    recent: seq<RecentFile>,
    existing: set<string>,
    less: (string, string) -> bool)

  /** The engine's playlist state that `execute` reads. */
  datatype PlaylistView = PlaylistView(count: int, items: seq<PlayItem>, current: int, timePos: int, playing: bool)

  /** A dialog's chosen paths, loaded, or nothing when it was cancelled. */
  function DialogLoad(picked: Option<seq<FileInfo>>, append: bool, disk: bool, types: FileTypes): seq<Command>
  {
    if picked.Some? then LoadRun(picked.value, append, disk, types).cmds else []
  }

  function SingleOf(single: Option<FileInfo>): Option<seq<FileInfo>>
  {
    if single.Some? then Some([single.value]) else None
  }

  /** The commands an action sends to the engine. */
  function ActionCommands(a: Action, h: Host, v: PlaylistView, types: FileTypes): seq<Command>
  {
    match a
    case OpenFiles(_, append) => Paused(DialogLoad(h.files, append, false, types))
    case OpenFile(_) => Paused(DialogLoad(SingleOf(h.single), false, false, types))
    case OpenFolder(append, disk) => Paused(DialogLoad(SingleOf(h.single), append, disk, types))
    case OpenClipboard => ClipboardCommands(h.clipboard)
    case SortPlaylist(reverse) => PlaylistSortCommands(v.items, v.current, v.timePos, v.playing, reverse, h.less)
    case PlayPause => PlayPauseCommands(v.count, h.recent, h.existing)
    case _ => []
  }

  /**
   * Every file dialog pauses playback while open and resumes it after,
   * loading what was chosen in between; a cancelled dialog loads nothing.
   * Actions that only change the player's own state send nothing.
   */
  lemma ActionCommandsShape(a: Action, h: Host, v: PlaylistView, types: FileTypes)
    ensures a.OpenFiles? || a.OpenFile? || a.OpenFolder? ==>
      var cmds := ActionCommands(a, h, v, types);
      && |cmds| >= 2 && cmds[0] == Set("pause", "yes") && cmds[|cmds| - 1] == Set("pause", "no")
      && ((a.OpenFiles? && h.files.None?) || (!a.OpenFiles? && h.single.None?) ==> |cmds| == 2)
    ensures a.NoAction? || a.ShowUrlDialog? || a.OpenConfigDir? || a.ShowMetrics? || a.ShowMessage? ==>
      ActionCommands(a, h, v, types) == []
  {
  }

  // ---------------------------------------------------------------------
  // The Open URL dialog of the idle screen
  // ---------------------------------------------------------------------

  /**
   * One frame of the dialog: its close button, Escape, the box's text after
   * this frame's editing (None when untouched), Enter in the box, and the
   * Cancel and OK buttons.
   */
  datatype OpenUrlInput = OpenUrlInput(close: bool, escape: bool, typed: Option<string>, enter: bool, cancel: bool, ok: bool)

  /** Player::drawOpenURL: the dialog's new open flag and text, and the commands sent. */
  function OpenUrlStep(open: bool, buffer: string, i: OpenUrlInput): (r: (bool, string, seq<Command>))
    ensures !open ==> r == (open, buffer, [])
    ensures open && i.close ==> r == (false, buffer, [])
    ensures |r.2| <= 1
    ensures open && !i.close ==>
      var text := if i.typed.Some? then i.typed.value else buffer;
      && (r.2 != [] <==> text != [] && (i.enter || i.ok))
      && (r.2 != [] ==> r.2 == [["loadfile", text]])
      && (r.0 <==> !i.escape && !i.cancel && r.2 == [])
      && (r.1 == if r.0 then text else [])
  {
    if !open || i.close then (false, buffer, [])
    else
      var text := if i.typed.Some? then i.typed.value else buffer;
      var load := text != [] && (i.enter || i.ok);
      var stillOpen := !i.escape && !i.cancel && !load;
      (stillOpen, if stillOpen then text else [], if load then [["loadfile", text]] else [])
  }

  // ---------------------------------------------------------------------
  // Keys and provider lists
  // ---------------------------------------------------------------------

  /** Player::onKeyEvent for each key, in order. */
  function KeyPresses(keys: seq<string>): (cmds: seq<Command>)
    ensures |cmds| == |keys|
    ensures forall k :: 0 <= k < |keys| ==> cmds[k] == ["keypress", keys[k]]
  {
    seq(|keys|, k requires 0 <= k < |keys| => ["keypress", keys[k]])
  }

  /** A subtitle as the command line lists it: a name and a URL. */
  datatype CmdSubtitle = CmdSubtitle(name: string, url: string)

  /** A provider as the command line lists it: a name and its subtitles. */
  datatype CmdSubtitleProvider = CmdSubtitleProvider(name: string, subtitles: seq<CmdSubtitle>)

  /** `subs` holds the same (name, url) pairs as `cmd`, in the same order. */
  predicate SameSubtitles(subs: seq<ExternalSubtitle>, cmd: seq<CmdSubtitle>)
  {
    |subs| == |cmd| && forall j :: 0 <= j < |cmd| ==> subs[j].name == cmd[j].name && subs[j].url == cmd[j].url
  }

  /** `ps` holds the providers of `cmd`, in order, each with its name and subtitles. */
  predicate SameProviders(ps: seq<SubtitleProvider>, cmd: seq<CmdSubtitleProvider>)
  {
    |ps| == |cmd| && forall k :: 0 <= k < |cmd| ==> ps[k].name == cmd[k].name && SameSubtitles(ps[k].subtitles, cmd[k].subtitles)
  }

  /** The copy is determined by the list it copies: nothing is added, dropped or reordered. */
  lemma SameProvidersUnique(a: seq<SubtitleProvider>, b: seq<SubtitleProvider>, cmd: seq<CmdSubtitleProvider>)
    requires SameProviders(a, cmd) && SameProviders(b, cmd)
    ensures a == b
  {
    forall k | 0 <= k < |a| ensures a[k] == b[k] {
      var sa, sb := a[k].subtitles, b[k].subtitles;
      forall j | 0 <= j < |sa| ensures sa[j] == sb[j] {
        assert sa[j].name == sb[j].name && sa[j].url == sb[j].url;
      }
      assert sa == sb;
    }
  }

  /** The loop of setExternalSubtitleProviders that copies one provider's subtitles. */
  method CopySubtitles(cmd: seq<CmdSubtitle>) returns (subs: seq<ExternalSubtitle>)
    ensures SameSubtitles(subs, cmd)
  {
    subs := [];
    for j := 0 to |cmd|
      invariant SameSubtitles(subs, cmd[..j])
    {
      subs := subs + [ExternalSubtitle(cmd[j].name, cmd[j].url)];
    }
    assert cmd[..|cmd|] == cmd;
  }

  /** The loop of setExternalSubtitleProviders that converts the providers. */
  method CopyProviders(cmd: seq<CmdSubtitleProvider>) returns (ps: seq<SubtitleProvider>)
    ensures SameProviders(ps, cmd)
  {
    ps := [];
    for k := 0 to |cmd|
      invariant SameProviders(ps, cmd[..k])
    {
      var subs := CopySubtitles(cmd[k].subtitles);
      ps := ps + [SubtitleProvider(cmd[k].name, subs)];
    }
    assert cmd[..|cmd|] == cmd;
  }

  /** An in-place std::reverse. */
  method ReverseInPlace<T>(a: array<T>)
    modifies a
    ensures a[..] == Reverse(old(a[..]))
  {
    ghost var s := a[..];
    var n := a.Length;
    var i := 0;
    while i < n / 2
      invariant 0 <= i <= n / 2
      invariant forall k :: 0 <= k < i ==> a[k] == s[n - 1 - k] && a[n - 1 - k] == s[k]
      invariant forall k :: i <= k < n - i ==> a[k] == s[k]
    {
      a[i], a[n - 1 - i] := a[n - 1 - i], a[i];
      i := i + 1;
    }
    forall k | 0 <= k < n ensures a[k] == Reverse(s)[k] {
      ReverseAt(s, k);
    }
  }
}
