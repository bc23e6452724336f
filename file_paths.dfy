// The part of std::filesystem::path the file classes rely on: extension(),
// on the generic ('/'-separated) form.  Whether a path exists or names a
// directory is a question for the file system and is given by the caller.
module FilePaths {
  import opened Wrappers

  /** The position of the last `c` in `s`. */
  function LastIndexOf(s: string, c: char): (r: Option<nat>)
    ensures r.Some? ==> r.value < |s| && s[r.value] == c
    ensures r.Some? ==> forall k :: r.value < k < |s| ==> s[k] != c
    ensures r.None? ==> c !in s
  {
    if s == [] then None
    else if s[|s| - 1] == c then Some(|s| - 1)
    else LastIndexOf(s[..|s| - 1], c)
  }

  /** path::filename(): what follows the last separator. */
  function FileName(path: string): (r: string)
    ensures '/' !in r && |r| <= |path|
    ensures r == path <==> '/' !in path
  {
    match LastIndexOf(path, '/')
    case None => path
    case Some(k) => path[k + 1..]
  }

  /** path::extension(): from the rightmost period of the file name to its
      end, unless the name is "." or "..", has no period, or has its only
      period in front (".profile" has no extension). */
  function Extension(path: string): (r: string)
    ensures r != "" ==> r[0] == '.' && '/' !in r
    ensures r != "" ==> |r| < |FileName(path)|
  {
    var name := FileName(path);
    if name == "." || name == ".." then ""
    else match LastIndexOf(name, '.')
      case None => ""
      case Some(k) => if k == 0 then "" else name[k..]
  }

  /** The file name is a suffix of the path and holds no separator. */
  lemma FileNameRule(path: string)
    ensures '/' !in FileName(path)
    ensures EndsWith(path, FileName(path))
  {
  }

  predicate EndsWith(s: string, t: string)
  {
    |t| <= |s| && s[|s| - |t|..] == t
  }

  lemma EndsWithTrans(s: string, t: string, u: string)
    requires EndsWith(s, t) && EndsWith(t, u)
    ensures EndsWith(s, u)
    ensures forall i :: 0 <= i < |t| ==> s[|s| - |t| + i] == t[i]
  {
    forall i | 0 <= i < |t|
      ensures s[|s| - |t| + i] == t[i]
    {
      assert s[|s| - |t|..][i] == t[i];
    }
    assert s[|s| - |u|..] == t[|t| - |u|..];
  }

  /** A non-empty extension is a suffix of the path that leaves a
      non-empty stem before it. */
  lemma ExtensionIsSuffix(path: string)
    requires Extension(path) != ""
    ensures |Extension(path)| < |path| && EndsWith(path, Extension(path))
    ensures path[|path| - |Extension(path)| - 1] != '/'
  {
    var name := FileName(path);
    FileNameRule(path);
    var k := LastIndexOf(name, '.').value;
    var e := name[k..];
    assert name != "." && name != ".." && k > 0;
    assert Extension(path) == e;
    NameExtensionShape(name, k);
    assert EndsWith(name, e);
    EndsWithTrans(path, name, e);
    assert path[|path| - |name| + (k - 1)] == name[k - 1];
  }

  /** A non-empty extension starts with the only period in it and holds no
      separator. */
  lemma ExtensionForm(path: string)
    requires Extension(path) != ""
    ensures Extension(path)[0] == '.' && '.' !in Extension(path)[1..] && '/' !in Extension(path)
  {
    var name := FileName(path);
    FileNameRule(path);
    var k := LastIndexOf(name, '.').value;
    assert Extension(path) == name[k..];
    NameExtensionShape(name, k);
  }

  lemma NameExtensionShape(name: string, k: nat)
    requires '/' !in name && LastIndexOf(name, '.') == Some(k) && k > 0
    ensures name[k] == '.' && '.' !in name[k..][1..] && '/' !in name[k..] && name[k - 1] != '/'
    ensures name[|name| - |name[k..]|..] == name[k..]
  {
    forall i | 0 <= i < |name[k..]| - 1
      ensures name[k..][1..][i] != '.'
    {
      assert name[k..][1..][i] == name[k + 1 + i];
    }
  }

  lemma LastIndexOfAppend(a: string, b: string, c: char)
    requires c !in b
    ensures LastIndexOf(a + b, c) == LastIndexOf(a, c)
    decreases |b|
  {
    if b != [] {
      assert (a + b)[..|a + b| - 1] == a + b[..|b| - 1];
      assert (a + b)[|a + b| - 1] == b[|b| - 1];
      assert b[|b| - 1] in b;
      LastIndexOfAppend(a, b[..|b| - 1], c);
    } else {
      assert a + b == a;
    }
  }

  lemma LastIndexOfFinal(a: string, c: char, b: string)
    requires c !in b
    ensures LastIndexOf(a + [c] + b, c) == Some(|a|)
  {
    LastIndexOfAppend(a + [c], b, c);
  }

  /** A file "<dir>/<stem>.<ext>" has the extension "." + ext, whatever
      periods the stem holds. */
  lemma FileExtension(dir: string, stem: string, ext: string)
    requires '/' !in stem && stem != "" && ext != "" && '/' !in ext && '.' !in ext
    ensures Extension(dir + "/" + stem + "." + ext) == "." + ext
  {
    var path := dir + "/" + stem + "." + ext;
    var name := stem + "." + ext;
    assert path == dir + ['/'] + name;
    LastIndexOfFinal(dir, '/', name);
    assert FileName(path) == name;
    assert |name| >= 3;
    assert name == stem + ['.'] + ext;
    LastIndexOfFinal(stem, '.', ext);
    assert LastIndexOf(name, '.') == Some(|stem|);
    assert name[|stem|..] == "." + ext;
  }

  /** A file called ".obj" has no extension: its period is the first
      character of its name. */
  lemma DotFileHasNoExtension(dir: string)
    ensures Extension(dir + "/.obj") == ""
  {
    assert dir + "/.obj" == dir + ['/'] + ".obj";
    LastIndexOfFinal(dir, '/', ".obj");
    assert ".obj" == [] + ['.'] + "obj";
    LastIndexOfFinal([], '.', "obj");
  }

  /** A period in a directory name is not an extension. */
  lemma DirectoryPeriodIsNoExtension(dir: string, name: string)
    requires '/' !in name && '.' !in name
    ensures Extension(dir + "/" + name) == ""
  {
    assert dir + "/" + name == dir + ['/'] + name;
    LastIndexOfFinal(dir, '/', name);
  }

  /** The for_each over the supported list: some entry compares equal. */
  predicate Supported(ext: string, supported: seq<string>)
  {
    exists i :: 0 <= i < |supported| && supported[i] == ext
  }
}
