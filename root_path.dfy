// setRootPath: the engine's root directory is found inside the working
// directory's path.  Back-slashes become forward slashes, then the path is
// cut right after the first occurrence of "Toy-Bricks-Engine/".  Reading the
// working directory and setting the new one are I/O and are left to the
// caller: the computation takes the current path and yields the new one.
module RootPath {
  import opened Wrappers

  const MARKER: string := "Toy-Bricks-Engine/"

  /** std::replace(path, '\\', '/'). */
  function Normalise(path: string): string
  {
    seq(|path|, i requires 0 <= i < |path| => if path[i] == '\\' then '/' else path[i])
  }

  /** Only back-slashes change: the length is kept, no back-slash is left,
      and a path without back-slashes is its own normal form. */
  lemma NormaliseRule(path: string)
    ensures |Normalise(path)| == |path|
    ensures '\\' !in Normalise(path)
    ensures forall i :: 0 <= i < |path| && path[i] != '\\' ==> Normalise(path)[i] == path[i]
    ensures '\\' !in path ==> Normalise(path) == path
  {
  }

  lemma NormaliseAppend(a: string, b: string)
    ensures Normalise(a + b) == Normalise(a) + Normalise(b)
  {
  }

  predicate OccursAt(s: string, pat: string, i: nat)
  {
    i + |pat| <= |s| && s[i..i + |pat|] == pat
  }

  /** std::string::find from position i. */
  function FindFrom(s: string, pat: string, i: nat): (r: Option<nat>)
    ensures r.Some? ==> i <= r.value && r.value + |pat| <= |s|
    decreases |s| - i
  {
    if i + |pat| > |s| then None
    else if OccursAt(s, pat, i) then Some(i)
    else FindFrom(s, pat, i + 1)
  }

  /** find returns the first occurrence at or after i, or npos when there is none. */
  lemma {:induction false} FindFromSpec(s: string, pat: string, i: nat)
    ensures FindFrom(s, pat, i).Some? ==>
      OccursAt(s, pat, FindFrom(s, pat, i).value)
      && forall j: nat :: i <= j < FindFrom(s, pat, i).value ==> !OccursAt(s, pat, j)
    ensures FindFrom(s, pat, i).None? <==> forall j: nat :: i <= j ==> !OccursAt(s, pat, j)
    decreases |s| - i
  {
    if i + |pat| <= |s| && !OccursAt(s, pat, i) {
      FindFromSpec(s, pat, i + 1);
    }
  }

  /** The path setRootPath makes current, or the runtime_error it throws
      when the marker is missing. */
  function SetRootPath(cwd: string): (r: Result<string>)
    ensures r.Err? ==> r.error == Thrown("you need check work path!")
    ensures r.Ok? ==> r.value <= Normalise(cwd) && |MARKER| <= |r.value| && r.value[|r.value| - |MARKER|..] == MARKER
  {
    var path := Normalise(cwd);
    FindFromSpec(path, MARKER, 0);
    match FindFrom(path, MARKER, 0)
    case None => Err(Thrown("you need check work path!"))
    case Some(pos) => Ok(path[..pos + |MARKER|])
  }

  /** It throws exactly when the normalised path never contains the marker. */
  lemma SetRootPathFails(cwd: string)
    ensures SetRootPath(cwd).Err? <==> forall j: nat :: !OccursAt(Normalise(cwd), MARKER, j)
    ensures SetRootPath(cwd).Err? ==> SetRootPath(cwd).error == Thrown("you need check work path!")
  {
    FindFromSpec(Normalise(cwd), MARKER, 0);
  }

  /** Cutting a string right after the first occurrence of a pattern keeps
      that occurrence as the first one, now at the very end. */
  lemma {:induction false} CutAtFirstOccurrence(s: string, pat: string)
    requires FindFrom(s, pat, 0).Some?
    ensures var k := FindFrom(s, pat, 0).value;
      var r := s[..k + |pat|];
      r[k..] == pat && forall j: nat :: j < k ==> !OccursAt(r, pat, j)
    ensures var k := FindFrom(s, pat, 0).value;
      FindFrom(s[..k + |pat|], pat, 0) == Some(k)
  {
    FindFromSpec(s, pat, 0);
    var k := FindFrom(s, pat, 0).value;
    var r := s[..k + |pat|];
    assert r[k..] == s[k..k + |pat|];
    forall j: nat | j < k
      ensures !OccursAt(r, pat, j)
    {
      assert !OccursAt(s, pat, j);
      assert r[j..j + |pat|] == s[j..j + |pat|];
    }
    assert OccursAt(r, pat, k);
    FindFromSpec(r, pat, 0);
    var found := FindFrom(r, pat, 0);
    if found.Some? {
      assert !(found.value < k);
      assert !(k < found.value);
    }
  }

  /** The result is a prefix of the normalised path, ends with the marker,
      holds no back-slash, and the marker occurs in it only at its end. */
  lemma {:induction false} SetRootPathShape(cwd: string)
    requires SetRootPath(cwd).Ok?
    ensures var r := SetRootPath(cwd).value;
      r <= Normalise(cwd) && |r| >= |MARKER| && r[|r| - |MARKER|..] == MARKER && '\\' !in r
      && forall j: nat :: j < |r| - |MARKER| ==> !OccursAt(r, MARKER, j)
  {
    NormaliseRule(cwd);
    CutAtFirstOccurrence(Normalise(cwd), MARKER);
  }

  /** setRootPath applied to its own result changes nothing. */
  lemma {:induction false} SetRootPathIdempotent(cwd: string)
    requires SetRootPath(cwd).Ok?
    ensures SetRootPath(SetRootPath(cwd).value) == SetRootPath(cwd)
  {
    var path := Normalise(cwd);
    var k := FindFrom(path, MARKER, 0).value;
    var r := path[..k + |MARKER|];
    NormaliseRule(cwd);
    assert '\\' !in r;
    NormaliseRule(r);
    CutAtFirstOccurrence(path, MARKER);
    assert r[..k + |MARKER|] == r;
  }

  /** The working directory read back after a successful call is the result
      without its trailing separator, and from there setRootPath throws: the
      only occurrence of the marker was the one at the very end. */
  lemma {:induction false} SecondCallThrows(cwd: string)
    requires SetRootPath(cwd).Ok?
    ensures var r := SetRootPath(cwd).value;
      SetRootPath(r[..|r| - 1]).Err?
  {
    var r := SetRootPath(cwd).value;
    SetRootPathShape(cwd);
    var back := r[..|r| - 1];
    NormaliseRule(back);
    assert Normalise(back) == back;
    forall j: nat | true
      ensures !OccursAt(back, MARKER, j)
    {
      if OccursAt(back, MARKER, j) {
        assert back[j..j + |MARKER|] == r[j..j + |MARKER|];
        assert OccursAt(r, MARKER, j);
        assert false;
      }
    }
    SetRootPathFails(back);
  }

  lemma OccurrenceEndsWithPatternEnd(s: string, pat: string, j: nat)
    requires OccursAt(s, pat, j) && |pat| > 0
    ensures s[j + |pat| - 1] == pat[|pat| - 1]
  {
    assert s[j..j + |pat|][|pat| - 1] == s[j + |pat| - 1];
  }

  /** The marker carries the trailing separator: a working directory that is
      the engine folder itself, written without a final separator, does not
      match (when nothing before it does) and setRootPath throws. */
  lemma {:induction false} MissingTrailingSeparatorFails(prefix: string)
    requires forall j: nat :: !OccursAt(Normalise(prefix), MARKER, j)
    ensures SetRootPath(prefix + "Toy-Bricks-Engine").Err?
  {
    var tail := "Toy-Bricks-Engine";
    var path := Normalise(prefix + tail);
    NormaliseAppend(prefix, tail);
    assert Normalise(tail) == tail;
    NormaliseRule(prefix);
    forall j: nat | true
      ensures !OccursAt(path, MARKER, j)
    {
      // An occurrence reaching into the folder name would end on one of
      // its letters, but the marker ends with '/'.
      if OccursAt(path, MARKER, j) {
        if j + |MARKER| <= |prefix| {
          assert path[j..j + |MARKER|] == Normalise(prefix)[j..j + |MARKER|];
          assert OccursAt(Normalise(prefix), MARKER, j);
        } else {
          OccurrenceEndsWithPatternEnd(path, MARKER, j);
          assert false;
        }
      }
    }
    SetRootPathFails(prefix + tail);
  }
}
