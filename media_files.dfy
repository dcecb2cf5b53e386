/**
 * How the player classifies a path, following std::filesystem::path: the
 * file name is what follows the last '/', and the extension is the file name
 * from its last '.' onwards, except that the names "." and "..", and a name
 * whose only dot is its first character, have no extension.
 */
module MediaFiles {
  import opened Wrappers

  /** The index of the last `c` in `s`, or -1 when there is none. */
  function LastIndex(s: string, c: char): (k: int)
    ensures -1 <= k < |s|
  {
    if s == [] then -1
    else if s[|s| - 1] == c then |s| - 1
    else LastIndex(s[..|s| - 1], c)
  }

  /** LastIndex finds the last `c`: there is none after it, and none at all when it answers -1. */
  lemma {:induction false} LastIndexSpec(s: string, c: char)
    ensures var k := LastIndex(s, c);
      && (k >= 0 ==> s[k] == c && c !in s[k + 1..])
      && (k == -1 ==> c !in s)
    decreases |s|
  {
    if s != [] && s[|s| - 1] != c {
      var init := s[..|s| - 1];
      LastIndexSpec(init, c);
      var k := LastIndex(init, c);
      assert s == init + [s[|s| - 1]];
      if k >= 0 {
        assert s[k + 1..] == init[k + 1..] + [s[|s| - 1]];
      }
    }
  }

  /** Behind a final `c`, a stretch without `c` puts the last `c` at the end of `a`. */
  lemma LastIndexAfter(a: string, b: string, c: char)
    requires a == [] || a[|a| - 1] == c
    requires c !in b
    ensures LastIndex(a + b, c) == |a| - 1
  {
    var s := a + b;
    LastIndexSpec(s, c);
    var k := LastIndex(s, c);
    if a != [] {
      assert s[|a| - 1] == c;
    }
  }

  /** path::filename: the part after the last '/'. */
  function FileName(path: string): string
  {
    path[LastIndex(path, '/') + 1..]
  }

  /** The file name is the end of the path after its last '/', and holds no '/'. */
  lemma FileNameSpec(path: string)
    ensures var name := FileName(path);
      && '/' !in name
      && |name| <= |path| && name == path[|path| - |name|..]
      && (|name| < |path| ==> path[|path| - |name| - 1] == '/')
  {
    LastIndexSpec(path, '/');
  }

  /** The extension of a file name, dot included. */
  function NameExtension(name: string): string
  {
    var k := LastIndex(name, '.');
    if name == ".." || k <= 0 then "" else name[k..]
  }

  /** A file name's extension is empty, or a dot and the end of the name after its last dot. */
  lemma NameExtensionSpec(name: string)
    ensures var ext := NameExtension(name);
      && (ext == [] || (ext[0] == '.' && '.' !in ext[1..]))
      && |ext| <= |name| && ext == name[|name| - |ext|..]
  {
    LastIndexSpec(name, '.');
    var k := LastIndex(name, '.');
    if !(name == ".." || k <= 0) {
      assert name[k..][1..] == name[k + 1..];
    }
  }

  /** path::extension: the extension of the file name. */
  function Extension(path: string): string
  {
    NameExtension(FileName(path))
  }

  /** A path's extension is empty, or a dot and the end of the path after its last dot, with no '/'. */
  lemma ExtensionSpec(path: string)
    ensures var ext := Extension(path);
      && (ext == [] || (ext[0] == '.' && '.' !in ext[1..] && '/' !in ext))
      && |ext| <= |path| && ext == path[|path| - |ext|..]
  {
    var name := FileName(path);
    FileNameSpec(path);
    NameExtensionSpec(name);
    ExtensionOfSuffix(path, name, NameExtension(name));
  }

  /** An extension at the end of a '/'-free name at the end of a path ends the path and holds no '/'. */
  lemma ExtensionOfSuffix(path: string, name: string, ext: string)
    requires |name| <= |path| && name == path[|path| - |name|..] && '/' !in name
    requires |ext| <= |name| && ext == name[|name| - |ext|..]
    ensures ext == path[|path| - |ext|..] && '/' !in ext
  {
    NotInSuffix(name, |name| - |ext|, '/');
    assert path[|path| - |name|..][|name| - |ext|..] == path[|path| - |ext|..];
  }

  lemma NotInSuffix(s: string, k: nat, c: char)
    requires k <= |s| && c !in s
    ensures c !in s[k..]
  {
  }

  lemma Assoc(a: string, b: string, c: string)
    ensures a + b + c == a + (b + c)
  {
  }

  lemma DropAppend(a: string, b: string)
    ensures (a + b)[|a|..] == b
  {
  }

  /** The file name of a path in directory `dir` is what follows `dir`. */
  lemma FileNameAfter(dir: string, name: string)
    requires dir == [] || dir[|dir| - 1] == '/'
    requires '/' !in name
    ensures FileName(dir + name) == name
  {
    LastIndexAfter(dir, name, '/');
    assert (dir + name)[|dir|..] == name;
  }

  /** The extension lists the player recognises, one per kind of file. */
  datatype FileTypes = FileTypes(video: seq<string>, audio: seq<string>, image: seq<string>, subtitle: seq<string>)

  /** The extension with its leading dot removed, as the type lists spell it. */
  function StripDot(ext: string): (r: string)
    ensures ext != [] && ext[0] == '.' ==> ext == "." + r
  {
    if ext != [] && ext[0] == '.' then ext[1..] else ext
  }

  /** Player::isMediaFile: a video, audio or image extension. */
  predicate IsMediaFile(path: string, types: FileTypes)
  {
    var ext := Extension(path);
    ext != [] && (StripDot(ext) in types.video || StripDot(ext) in types.audio || StripDot(ext) in types.image)
  }

  /** Player::isSubtitleFile: a subtitle extension. */
  predicate IsSubtitleFile(path: string, types: FileTypes)
  {
    var ext := Extension(path);
    ext != [] && StripDot(ext) in types.subtitle
  }

  /** The extension of the file name `base` "." `e` is "." `e`. */
  lemma NameExtensionOfParts(base: string, e: string)
    requires base != []
    requires e != [] && '.' !in e
    ensures NameExtension(base + "." + e) == "." + e
  {
    var name := base + "." + e;
    LastIndexAfter(base + ".", e, '.');
    Assoc(base, ".", e);
    DropAppend(base, "." + e);
    assert |name| >= 3;
  }

  /** A path in directory `dir` whose file name is `base` "." `e` has extension "." `e`. */
  lemma ExtensionOfName(dir: string, base: string, e: string)
    requires dir == [] || dir[|dir| - 1] == '/'
    requires base != [] && '/' !in base
    requires e != [] && '.' !in e && '/' !in e
    ensures Extension(dir + base + "." + e) == "." + e
  {
    var name := base + "." + e;
    Assoc(dir + base, ".", e);
    Assoc(dir, base, "." + e);
    Assoc(base, ".", e);
    assert '/' !in name;
    FileNameAfter(dir, name);
    NameExtensionOfParts(base, e);
  }

  /**
   * So a file is media exactly when its extension, without the dot, is in one
   * of the media lists, and a subtitle exactly when it is in the subtitle list.
   */
  lemma ClassifyByExtension(dir: string, base: string, e: string, types: FileTypes)
    requires dir == [] || dir[|dir| - 1] == '/'
    requires base != [] && '/' !in base
    requires e != [] && '.' !in e && '/' !in e
    ensures IsMediaFile(dir + base + "." + e, types) <==> e in types.video || e in types.audio || e in types.image
    ensures IsSubtitleFile(dir + base + "." + e, types) <==> e in types.subtitle
  {
    ExtensionOfName(dir, base, e);
    assert StripDot("." + e) == e;
  }

  /** A file name without a dot is neither media nor subtitle, whatever the lists hold. */
  lemma NoDotNoType(path: string, types: FileTypes)
    requires '.' !in FileName(path)
    ensures !IsMediaFile(path, types) && !IsSubtitleFile(path, types)
  {
    LastIndexSpec(FileName(path), '.');
  }

  /** Nor is a hidden file such as ".mkv": its leading dot does not start an extension. */
  lemma HiddenFileNoType(dir: string, e: string, types: FileTypes)
    requires dir == [] || dir[|dir| - 1] == '/'
    requires '.' !in e && '/' !in e
    ensures Extension(dir + "." + e) == []
    ensures !IsMediaFile(dir + "." + e, types) && !IsSubtitleFile(dir + "." + e, types)
  {
    var name := "." + e;
    Assoc(dir, ".", e);
    FileNameAfter(dir, name);
    LastIndexAfter(".", e, '.');
  }
}
