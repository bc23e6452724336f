// Resource::File::ModelFile: an OBJ model on disk and the de-duplicated
// vertex and index lists read from it.  The existence check of the base
// class (not a directory, and present) is a file-system query and is given
// as a parameter.
module CoreModelFile {
  import opened Wrappers
  import opened FilePaths
  import opened ObjIndexing

  /** supportedShaderTypes once the constructor has filled it. */
  const SUPPORTED_EXTENSIONS: seq<string> := [".obj"]

  /** ModelFile::checkPathValid's answer: the base check holds and the
      extension is a supported one. */
  predicate PathAccepted(path: string, onDisk: bool)
  {
    onDisk && Supported(Extension(path), SUPPORTED_EXTENSIONS)
  }

  /** Only an existing "<stem>.obj" file is accepted. */
  lemma PathAcceptedRule(path: string, onDisk: bool)
    ensures PathAccepted(path, onDisk) <==> onDisk && Extension(path) == ".obj"
  {
    assert SUPPORTED_EXTENSIONS[0] == ".obj" && |SUPPORTED_EXTENSIONS| == 1;
  }

  /** An existing "<stem>.obj" file is accepted; a missing one, or a file
      whose name is just ".obj", is refused. */
  lemma {:induction false} PathAcceptedExamples(dir: string, stem: string)
    requires '/' !in stem && stem != ""
    ensures PathAccepted(dir + "/" + stem + ".obj", true)
    ensures !PathAccepted(dir + "/" + stem + ".obj", false)
    ensures !PathAccepted(dir + "/.obj", true)
  {
    var p := dir + "/" + stem + ".obj";
    StemExtension(dir, stem, "obj");
    assert "." + "obj" == ".obj";
    PathAcceptedRule(p, true);
    DotFileHasNoExtension(dir);
    PathAcceptedRule(dir + "/.obj", true);
  }

  /** FileExtension for a literal extension written with its period. */
  lemma StemExtension(dir: string, stem: string, ext: string)
    requires '/' !in stem && stem != "" && ext != "" && '/' !in ext && '.' !in ext
    ensures Extension(dir + "/" + stem + ("." + ext)) == "." + ext
  {
    FileExtension(dir, stem, ext);
    assert dir + "/" + stem + "." + ext == dir + "/" + stem + ("." + ext);
  }

  /** After newFile on an existing "<stem>.png", `valid` holds the base
      check (true) while the model file's own check refuses the path. */
  lemma {:induction false} OtherExtensionRefused(dir: string, stem: string)
    requires '/' !in stem && stem != ""
    ensures !PathAccepted(dir + "/" + stem + ".png", true)
  {
    StemExtension(dir, stem, "png");
    assert "." + "png" == ".png";
    PathAcceptedRule(dir + "/" + stem + ".png", true);
  }

  class ModelFile<V(==)> {
    var filePath: string
    var valid: bool
    var vertices: seq<V>
    var indices: seq<nat>

    /** Every index names a stored vertex, and no vertex is stored twice. */
    predicate Valid()
      reads this`vertices, this`indices
    {
      (forall k :: 0 <= k < |indices| ==> indices[k] < |vertices|) && Distinct(vertices)
    }

    /** The base constructor runs the base check (a virtual call made while
        the base is being built does not reach the override);  the body
        then stores the overriding check. */
    constructor(path: string, onDisk: bool)
      ensures filePath == path && valid == PathAccepted(path, onDisk)
      ensures vertices == [] && indices == [] && Valid()
    {
      filePath := path;
      valid := onDisk;
      vertices := [];
      indices := [];
      new;
      valid := CheckPathValid(onDisk);
    }

    /** The base check stores its own answer in `valid`; the override adds
        the extension test to the value it returns but does not store it. */
    method CheckPathValid(onDisk: bool) returns (ret: bool)
      modifies this`valid
      ensures valid == onDisk
      ensures ret == PathAccepted(filePath, onDisk)
    {
      valid := onDisk;
      ret := onDisk;
      if ret {
        ret := ret && Supported(Extension(filePath), SUPPORTED_EXTENSIONS);
      }
    }

    /** read(): nothing happens when vertices are already loaded; a failed
        load throws with the loader's warning and error text; otherwise the
        de-duplicated vertices and their indices are appended. */
    method Read(load: ObjLoad<V>) returns (r: Outcome)
      modifies this`vertices, this`indices
      ensures old(vertices) != [] ==> r == Done && vertices == old(vertices) && indices == old(indices)
      ensures old(vertices) == [] && load.LoadFailed? ==>
        r == Fail(Thrown(load.warn + load.err)) && vertices == [] && indices == old(indices)
      ensures old(vertices) == [] && load.Loaded? ==>
        r == Done && vertices == Dedup(Flatten(load.shapes))
        && |old(indices)| <= |indices| && indices[..|old(indices)|] == old(indices)
        && PointsTo(vertices, indices[|old(indices)|..], Flatten(load.shapes))
      ensures old(Valid()) ==> Valid()
    {
      if vertices != [] {
        return Done;
      }
      if load.LoadFailed? {
        return Fail(Thrown(load.warn + load.err));
      }
      var vs, ix := IndexVertices(load.shapes);
      DedupDistinct(Flatten(load.shapes));
      vertices := vs;
      indices := indices + ix;
      assert indices[|old(indices)|..] == ix;
      r := Done;
    }

    /** free(): both lists are emptied. */
    method Free()
      modifies this`vertices, this`indices
      ensures vertices == [] && indices == [] && Valid()
    {
      vertices := [];
      indices := [];
    }

    /** FileBase::newFile as this class completes it: the old data is
        released, the path replaced and checked; preparing a new model file
        does nothing.  `valid` ends up holding only the base check. */
    method NewFile(path: string, onDisk: bool)
      modifies this
      ensures filePath == path && valid == onDisk
      ensures vertices == [] && indices == [] && Valid()
    {
      Free();
      filePath := path;
      var ok := CheckPathValid(onDisk);
    }

    /** newFile with the overriding check stored, as the constructor does. */
    method NewFileChecked(path: string, onDisk: bool)
      modifies this
      ensures filePath == path && valid == PathAccepted(path, onDisk)
      ensures vertices == [] && indices == [] && Valid()
    {
      Free();
      filePath := path;
      valid := CheckPathValid(onDisk);
    }
  }

  /** A loaded model satisfies the model invariant after read: starting from
      the empty lists, every index points at an equal stored vertex, there
      is one index per mesh index and the stored vertices are distinct. */
  lemma {:induction false} ReadFromEmpty<V>(shapes: seq<seq<V>>, vertices: seq<V>, indices: seq<nat>)
    requires vertices == Dedup(Flatten(shapes)) && PointsTo(vertices, indices, Flatten(shapes))
    ensures |indices| == TotalIndices(shapes)
    ensures Distinct(vertices)
    ensures forall v :: v in vertices <==> v in Flatten(shapes)
  {
    FlattenLength(shapes);
    DedupDistinct(Flatten(shapes));
    DedupMembers(Flatten(shapes));
  }
}
