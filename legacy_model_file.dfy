// File::ModelFile, the older loader: the same de-duplicating read, a
// constant path and a side-effect-free path check.  Whether the path
// exists (and is not a directory) is given by the caller.
module LegacyModelFile {
  import opened Wrappers
  import opened FilePaths
  import opened ObjIndexing

  const SUPPORTED_EXTENSIONS: seq<string> := [".obj"]

  class ModelFile<V(==)> {
    const filePath: string
    var valid: bool
    var vertices: seq<V>
    var indices: seq<nat>

    predicate Valid()
      reads this`vertices, this`indices
    {
      (forall k :: 0 <= k < |indices| ==> indices[k] < |vertices|) && Distinct(vertices)
    }

    /** pathValid() const: the base check and the extension membership. */
    predicate PathValid(onDisk: bool)
    {
      onDisk && Supported(Extension(filePath), SUPPORTED_EXTENSIONS)
    }

    constructor(path: string, onDisk: bool)
      ensures filePath == path && valid == PathValid(onDisk)
      ensures vertices == [] && indices == [] && Valid()
    {
      filePath := path;
      vertices := [];
      indices := [];
      new;
      valid := PathValid(onDisk);
    }

    /** read(): a silent no-op once vertices exist; a failed load throws;
        otherwise the de-duplicated vertices and their indices are appended. */
    method Read(load: ObjLoad<V>) returns (r: Outcome)
      modifies this`vertices, this`indices
      ensures old(vertices) != [] ==> r == Done && vertices == old(vertices) && indices == old(indices)
      ensures old(vertices) == [] && load.LoadFailed? ==>
        r == Fail(Thrown(load.warn + load.err)) && vertices == [] && indices == old(indices)
      ensures old(vertices) == [] && load.Loaded? ==>
        r == Done && vertices == Dedup(Flatten(load.shapes))
        && |old(indices)| <= |indices| && indices[..|old(indices)|] == old(indices)
        && PointsTo(vertices, indices[|old(indices)|..], Flatten(load.shapes))
      ensures old(Valid()) ==> Valid()
    {
      if vertices != [] {
        return Done;
      }
      if load.LoadFailed? {
        return Fail(Thrown(load.warn + load.err));
      }
      var vs, ix := IndexVertices(load.shapes);
      DedupDistinct(Flatten(load.shapes));
      vertices := vs;
      indices := indices + ix;
      assert indices[|old(indices)|..] == ix;
      r := Done;
    }

    method Free()
      modifies this`vertices, this`indices
      ensures vertices == [] && indices == [] && Valid()
    {
      vertices := [];
      indices := [];
    }
  }

  /** The check accepts exactly an existing file whose extension is ".obj". */
  lemma PathValidRule<V>(m: ModelFile<V>, onDisk: bool)
    ensures m.PathValid(onDisk) <==> onDisk && Extension(m.filePath) == ".obj"
  {
    assert SUPPORTED_EXTENSIONS[0] == ".obj" && |SUPPORTED_EXTENSIONS| == 1;
  }
}
