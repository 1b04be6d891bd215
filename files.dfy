/** The file system as the executors see it, and the Windows path functions of
    `System.IO.Path` they call. `File.Exists`, `Directory.Exists`,
    `Directory.GetDirectories` and `XDocument.Load` are lookups in a `FileSystem` value. */
module Files {
  import opened Wrappers
  import opened Text
  import Xml

  /** `dirs` and `files` are the existing directories and files; `listings` gives the
      immediate subdirectories of a directory that can be listed (a directory missing from
      it makes `Directory.GetDirectories` throw); `documents` gives the XML files that load
      (a file missing from it makes `XDocument.Load` throw). */
  datatype FileSystem = FileSystem(
    dirs: set<string>,
    files: set<string>,
    listings: map<string, seq<string>>,
    documents: map<string, Xml.XDocument>)

  predicate FileExists(fs: FileSystem, path: string) {
    path in fs.files
  }

  predicate DirectoryExists(fs: FileSystem, path: string) {
    path in fs.dirs
  }

  /** `Directory.GetDirectories`; `None` when the call throws. */
  function GetDirectories(fs: FileSystem, path: string): Option<seq<string>> {
    if path in fs.listings then Some(fs.listings[path]) else None
  }

  /** `XDocument.Load`; `None` when the call throws. */
  function Load(fs: FileSystem, path: string): Option<Xml.XDocument> {
    if path in fs.documents then Some(fs.documents[path]) else None
  }

  predicate IsSeparator(c: char) {
    c == '\\' || c == '/'
  }

  predicate IsAsciiLetter(c: char) {
    ('a' <= c <= 'z') || ('A' <= c <= 'Z')
  }

  /** A drive-qualified path such as `C:` or `C:\x`. */
  predicate IsDriveRooted(p: string) {
    |p| >= 2 && p[1] == ':' && IsAsciiLetter(p[0])
  }

  /** `Path.IsPathRooted` on Windows. */
  predicate IsPathRooted(p: string) {
    (|p| >= 1 && IsSeparator(p[0])) || IsDriveRooted(p)
  }

  /** Length of the root of a path: `C:\` is 3, `C:` is 2, a leading separator is 1. */
  function RootLength(p: string): (n: nat)
    ensures n <= |p|
  {
    if IsDriveRooted(p) then (if |p| >= 3 && IsSeparator(p[2]) then 3 else 2)
    else if |p| >= 1 && IsSeparator(p[0]) then 1
    else 0
  }

  predicate EndsWith(s: string, suffix: string) {
    |suffix| <= |s| && s[|s| - |suffix|..] == suffix
  }

  /** `Path.Combine(a, b)` on Windows: an empty part yields the other, a rooted second part
      replaces the first, and otherwise a backslash is inserted unless `a` already ends
      with a separator. */
  function Combine(a: string, b: string): (r: string)
    ensures a == "" ==> r == b
    ensures b == "" ==> r == a
    ensures EndsWith(r, b)
    ensures a != "" && b != "" && !IsPathRooted(b) ==> r == a + b || r == a + "\\" + b
  {
    if a == "" then b
    else if b == "" then a
    else if IsPathRooted(b) then b
    else if IsSeparator(a[|a| - 1]) then a + b
    else a + "\\" + b
  }

  /** Position of the last separator of `p`, if it has one. */
  function LastSeparator(p: string): (k: Option<nat>)
    ensures k.Some? ==> k.value < |p| && IsSeparator(p[k.value])
    ensures k.Some? ==> forall j :: k.value < j < |p| ==> !IsSeparator(p[j])
    ensures k.None? ==> forall j :: 0 <= j < |p| ==> !IsSeparator(p[j])
  {
    if p == [] then None
    else if IsSeparator(p[|p| - 1]) then Some(|p| - 1)
    else LastSeparator(p[..|p| - 1])
  }

  /** `Path.GetFileName`: what follows the last separator, or the drive prefix. */
  function GetFileName(p: string): (r: string)
    ensures EndsWith(p, r)
    ensures forall j :: 0 <= j < |r| ==> !IsSeparator(r[j])
  {
    match LastSeparator(p)
    case Some(k) => p[k + 1..]
    case None => if IsDriveRooted(p) then p[2..] else p
  }

  /** A plain name, with no separator and no drive, is its own file name. */
  lemma FileNameOfPlainName(p: string)
    requires forall j :: 0 <= j < |p| ==> !IsSeparator(p[j])
    requires !IsDriveRooted(p)
    ensures GetFileName(p) == p
  {
    assert LastSeparator(p).None?;
  }

  /** The last separator of `x + y`, when `x` ends with one and `y` has none, ends `x`. */
  lemma {:induction false} LastSeparatorOfAppend(x: string, y: string)
    requires x != "" && IsSeparator(x[|x| - 1])
    requires forall j :: 0 <= j < |y| ==> !IsSeparator(y[j])
    ensures LastSeparator(x + y) == Some(|x| - 1)
  {
    if y == [] {
      assert x + y == x;
    } else {
      assert (x + y)[..|x + y| - 1] == x + y[..|y| - 1];
      LastSeparatorOfAppend(x, y[..|y| - 1]);
    }
  }

  /** The last segment of a path joined from a directory and a plain name is that name. */
  lemma FileNameOfCombine(dir: string, name: string)
    requires dir != "" && name != "" && !IsDriveRooted(name)
    requires forall j :: 0 <= j < |name| ==> !IsSeparator(name[j])
    ensures GetFileName(Combine(dir, name)) == name
  {
    if IsSeparator(dir[|dir| - 1]) {
      LastSeparatorOfAppend(dir, name);
      assert (dir + name)[|dir|..] == name;
    } else {
      LastSeparatorOfAppend(dir + "\\", name);
      assert dir + "\\" + name == (dir + "\\") + name;
      assert ((dir + "\\") + name)[|dir| + 1..] == name;
    }
  }

  /** Trims the separators that end `p[..end]`, down to the root. */
  function TrimEnd(p: string, end: nat, root: nat): (e: nat)
    requires root <= end <= |p|
    ensures root <= e <= end
    ensures e == root || !IsSeparator(p[e - 1])
    decreases end
  {
    if end > root && IsSeparator(p[end - 1]) then TrimEnd(p, end - 1, root) else end
  }

  /** `Path.GetDirectoryName` on Windows: `None` for an effectively empty path or a bare
      root; otherwise everything before the last separator past the root, with trailing
      separators trimmed, or the empty string for a bare file name. */
  function GetDirectoryName(p: string): (r: Option<string>)
    ensures r.None? <==> (forall j :: 0 <= j < |p| ==> p[j] == ' ') || |p| <= RootLength(p)
    ensures r.Some? ==> |r.value| < |p| && r.value == p[..|r.value|]
  {
    if (forall j :: 0 <= j < |p| ==> p[j] == ' ') || |p| <= RootLength(p) then None
    else
      var root := RootLength(p);
      var last := match LastSeparator(p) case Some(k) => if k >= root then k else root case None => root;
      Some(p[..TrimEnd(p, last, root)])
  }

  /** `Path.GetDirectoryName(path) ?? Directory.GetCurrentDirectory()`: the directory of a
      file, falling back to the current directory only when there is none (a bare file
      name has the empty directory, not the current one). */
  function DirectoryOrCurrent(path: string, currentDirectory: string): (d: string)
    ensures GetDirectoryName(path).None? ==> d == currentDirectory
    ensures GetDirectoryName(path).Some? ==> |d| < |path| && d == path[..|d|]
  {
    match GetDirectoryName(path)
    case Some(directory) => directory
    case None => currentDirectory
  }

  /** The directory of a path joined from a directory and a plain name is that directory. */
  lemma DirectoryNameOfCombine(dir: string, name: string)
    requires |dir| > RootLength(dir) && !IsSeparator(dir[|dir| - 1])
    requires name != "" && !IsDriveRooted(name)
    requires forall j :: 0 <= j < |name| ==> !IsSeparator(name[j])
    ensures GetDirectoryName(Combine(dir, name)) == Some(dir)
  {
    var p := Combine(dir, name);
    assert p == dir + "\\" + name;
    assert RootLength(p) == RootLength(dir);
    assert p[|dir|] == '\\';
    LastSeparatorOfAppend(dir + "\\", name);
    assert p == (dir + "\\") + name;
    assert p[|dir|] != ' ';
    assert |p| > RootLength(p);
    assert TrimEnd(p, |dir|, RootLength(dir)) == |dir|;
    assert p[..|dir|] == dir;
  }

  /** Position where the extension of the last segment starts (its last dot), or `|p|`. */
  function ExtensionStart(p: string): (n: nat)
    ensures n <= |p|
    ensures n < |p| ==> p[n] == '.'
    ensures forall j :: n < j < |p| ==> p[j] != '.' && (n < |p| ==> !IsSeparator(p[j]))
    decreases |p|
  {
    if p == [] then 0
    else if p[|p| - 1] == '.' then |p| - 1
    else if IsSeparator(p[|p| - 1]) then |p|
    else
      var n := ExtensionStart(p[..|p| - 1]);
      if n < |p| - 1 then n else |p|
  }

  /** `Path.ChangeExtension`: the extension of the last segment (if any) replaced by `ext`,
      which gets a leading dot when it has none; the empty path stays empty. */
  function ChangeExtension(p: string, ext: string): (r: string)
    ensures p == "" ==> r == ""
    ensures p != "" ==> EndsWith(r, ext) && |r| >= ExtensionStart(p) && r[..ExtensionStart(p)] == p[..ExtensionStart(p)]
  {
    if p == "" then ""
    else if |ext| > 0 && ext[0] == '.' then p[..ExtensionStart(p)] + ext
    else p[..ExtensionStart(p)] + "." + ext
  }

  /** A `.dpr` file's sibling with another extension: only the extension changes. */
  lemma ChangeDprExtension(stem: string, ext: string)
    requires |ext| > 0 && ext[0] == '.'
    ensures ChangeExtension(stem + ".dpr", ext) == stem + ext
  {
    var p := stem + ".dpr";
    assert (stem + ".d")[..|stem| + 1] == stem + ".";
    assert (stem + ".dp")[..|stem| + 2] == stem + ".d";
    assert p[..|p| - 1] == stem + ".dp";
    assert ExtensionStart(stem + ".") == |stem|;
    assert ExtensionStart(stem + ".d") == |stem|;
    assert ExtensionStart(stem + ".dp") == |stem|;
    assert ExtensionStart(p) == |stem|;
  }
}
