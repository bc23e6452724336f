// The vertex de-duplication both OBJ loaders run over tinyobj's result:
// every mesh index of every shape, in shape order, yields a vertex; the
// first occurrence of each distinct vertex is appended to `vertices`, and
// every occurrence appends the position of its vertex to `indices`.
// Assembling a vertex from tinyobj's attribute arrays is floating-point work
// and is left out: a shape is given as the sequence of vertices its mesh
// indices produce, and a vertex is any value with equality (glm compares
// positions, colours and texture coordinates component-wise).
module ObjIndexing {

  /** What tinyobj::LoadObj hands back: for each shape, the vertex each of
      its mesh indices produces, or the warning and error text of a failed
      load. */
  datatype ObjLoad<V> = Loaded(shapes: seq<seq<V>>) | LoadFailed(warn: string, err: string)

  /** All shapes' vertices, shape after shape. */
  function Flatten<V>(shapes: seq<seq<V>>): seq<V>
  {
    if shapes == [] then [] else Flatten(shapes[..|shapes| - 1]) + shapes[|shapes| - 1]
  }

  /** The total number of mesh indices over all shapes. */
  function TotalIndices<V>(shapes: seq<seq<V>>): nat
  {
    if shapes == [] then 0 else TotalIndices(shapes[..|shapes| - 1]) + |shapes[|shapes| - 1]|
  }

  /** The distinct elements of `xs`, in the order of their first occurrence. */
  function Dedup<V(==)>(xs: seq<V>): seq<V>
  {
    if xs == [] then []
    else
      var d := Dedup(xs[..|xs| - 1]);
      if xs[|xs| - 1] in d then d else d + [xs[|xs| - 1]]
  }

  /** The position of the first occurrence of `v` in `xs`. */
  function FirstIndex<V(==)>(xs: seq<V>, v: V): nat
    requires v in xs
  {
    if v in xs[..|xs| - 1] then FirstIndex(xs[..|xs| - 1], v) else |xs| - 1
  }

  predicate Distinct<V(==)>(xs: seq<V>)
  {
    forall i, j :: 0 <= i < j < |xs| ==> xs[i] != xs[j]
  }

  /** `indices` names, position by position, an element of `vertices` equal
      to the corresponding element of `flat`. */
  predicate PointsTo<V(==)>(vertices: seq<V>, indices: seq<nat>, flat: seq<V>)
  {
    |indices| == |flat|
    && forall k :: 0 <= k < |indices| ==> indices[k] < |vertices| && vertices[indices[k]] == flat[k]
  }

  lemma FlattenSnoc<V>(shapes: seq<seq<V>>, s: nat)
    requires s < |shapes|
    ensures Flatten(shapes[..s + 1]) == Flatten(shapes[..s]) + shapes[s]
    ensures TotalIndices(shapes[..s + 1]) == TotalIndices(shapes[..s]) + |shapes[s]|
  {
    assert shapes[..s + 1][..s] == shapes[..s];
  }

  /** The flattened list has one entry per mesh index. */
  lemma {:induction false} FlattenLength<V>(shapes: seq<seq<V>>)
    ensures |Flatten(shapes)| == TotalIndices(shapes)
  {
    if shapes != [] {
      FlattenLength(shapes[..|shapes| - 1]);
    }
  }

  /** Shape order is kept: mesh index j of shape s is entry
      |Flatten(shapes[..s])| + j of the flattened list. */
  lemma {:induction false} FlattenShapeOrder<V>(shapes: seq<seq<V>>, s: nat, j: nat)
    requires s < |shapes| && j < |shapes[s]|
    ensures |Flatten(shapes[..s])| + j < |Flatten(shapes)|
    ensures Flatten(shapes)[|Flatten(shapes[..s])| + j] == shapes[s][j]
    decreases |shapes|
  {
    var n := |shapes| - 1;
    assert shapes[..n + 1] == shapes;
    FlattenSnoc(shapes, n);
    if s < n {
      var init := shapes[..n];
      FlattenShapeOrder(init, s, j);
      assert init[..s] == shapes[..s];
    }
  }

  lemma DedupSnoc<V>(xs: seq<V>, v: V)
    ensures Dedup(xs + [v]) == if v in Dedup(xs) then Dedup(xs) else Dedup(xs) + [v]
  {
    assert (xs + [v])[..|xs|] == xs;
  }

  /** De-duplication keeps exactly the elements of its input. */
  lemma {:induction false} DedupMembers<V>(xs: seq<V>)
    ensures forall v :: v in Dedup(xs) <==> v in xs
  {
    if xs != [] {
      var init := xs[..|xs| - 1];
      DedupMembers(init);
      assert xs == init + [xs[|xs| - 1]];
    }
  }

  /** No vertex is stored twice. */
  lemma {:induction false} DedupDistinct<V>(xs: seq<V>)
    ensures Distinct(Dedup(xs))
  {
    if xs != [] {
      DedupDistinct(xs[..|xs| - 1]);
    }
  }

  lemma {:induction false} FirstIndexSpec<V>(xs: seq<V>, v: V)
    requires v in xs
    ensures FirstIndex(xs, v) < |xs| && xs[FirstIndex(xs, v)] == v
    ensures v !in xs[..FirstIndex(xs, v)]
  {
    var init := xs[..|xs| - 1];
    if v in init {
      FirstIndexSpec(init, v);
      assert xs[..FirstIndex(xs, v)] == init[..FirstIndex(init, v)];
    } else {
      assert xs[..FirstIndex(xs, v)] == init;
    }
  }

  lemma FirstIndexStable<V>(xs: seq<V>, v: V, w: V)
    requires v in xs
    ensures FirstIndex(xs + [w], v) == FirstIndex(xs, v)
  {
    assert (xs + [w])[..|xs|] == xs;
  }

  /** Vertices are stored in the order in which they first occur. */
  lemma {:induction false} DedupFirstOccurrenceOrder<V>(xs: seq<V>)
    ensures forall v :: v in Dedup(xs) ==> v in xs
    ensures forall i, j :: 0 <= i < j < |Dedup(xs)| ==>
      FirstIndex(xs, Dedup(xs)[i]) < FirstIndex(xs, Dedup(xs)[j])
  {
    DedupMembers(xs);
    if xs != [] {
      var init := xs[..|xs| - 1];
      var last := xs[|xs| - 1];
      var d := Dedup(init);
      DedupFirstOccurrenceOrder(init);
      DedupMembers(init);
      assert xs == init + [last];
      forall i, j | 0 <= i < j < |Dedup(xs)|
        ensures FirstIndex(xs, Dedup(xs)[i]) < FirstIndex(xs, Dedup(xs)[j])
      {
        FirstIndexStable(init, d[i], last);
        FirstIndexSpec(init, d[i]);
        if j < |d| {
          FirstIndexStable(init, d[j], last);
        } else {
          assert Dedup(xs) == d + [last];
          assert FirstIndex(xs, last) == |init|;
        }
      }
    }
  }

  /** When the stored vertices are distinct, the index list is determined:
      any two index lists pointing at equal vertices are the same list. */
  lemma IndicesDetermined<V>(vertices: seq<V>, a: seq<nat>, b: seq<nat>, flat: seq<V>)
    requires Distinct(vertices)
    requires PointsTo(vertices, a, flat) && PointsTo(vertices, b, flat)
    ensures a == b
  {
    forall k | 0 <= k < |a|
      ensures a[k] == b[k]
    {
      assert vertices[a[k]] == vertices[b[k]];
    }
  }

  /** A list without repetitions is its own de-duplication, so indexing the
      stored vertices again stores them unchanged. */
  lemma {:induction false} DedupOfDistinct<V>(xs: seq<V>)
    requires Distinct(xs)
    ensures Dedup(xs) == xs
  {
    if xs != [] {
      var init := xs[..|xs| - 1];
      DedupOfDistinct(init);
      DedupMembers(init);
      assert xs[|xs| - 1] !in init;
    }
  }

  /** The loop's state describes the vertices seen so far: `vertices` is
      their de-duplication, `unique` maps each stored vertex to its position,
      and `indices` points at an equal stored vertex for each one seen. */
  predicate Indexed<V(==)>(unique: map<V, nat>, vertices: seq<V>, indices: seq<nat>, seen: seq<V>)
  {
    vertices == Dedup(seen)
    && (forall v :: v in unique ==> unique[v] < |vertices| && vertices[unique[v]] == v)
    && (forall i :: 0 <= i < |vertices| ==> vertices[i] in unique)
    && PointsTo(vertices, indices, seen)
  }

  /** The body of the inner loop: a vertex not met before is appended and
      recorded in the map; its index is appended either way. */
  method AddVertex<V(==)>(unique: map<V, nat>, vertices: seq<V>, indices: seq<nat>, ghost seen: seq<V>, v: V)
    returns (unique': map<V, nat>, vertices': seq<V>, indices': seq<nat>)
    requires Indexed(unique, vertices, indices, seen)
    ensures Indexed(unique', vertices', indices', seen + [v])
  {
    DedupSnoc(seen, v);
    unique', vertices' := unique, vertices;
    if v !in unique {
      unique' := unique[v := |vertices|];
      vertices' := vertices + [v];
    }
    indices' := indices + [unique'[v]];
  }

  /** The loop shared by both loaders, with its local unordered_map. */
  method IndexVertices<V(==)>(shapes: seq<seq<V>>) returns (vertices: seq<V>, indices: seq<nat>)
    ensures vertices == Dedup(Flatten(shapes))
    ensures PointsTo(vertices, indices, Flatten(shapes))
  {
    var unique: map<V, nat> := map[];
    vertices, indices := [], [];
    ghost var seen: seq<V> := [];
    for s := 0 to |shapes|
      invariant seen == Flatten(shapes[..s])
      invariant Indexed(unique, vertices, indices, seen)
    {
      FlattenSnoc(shapes, s);
      for j := 0 to |shapes[s]|
        invariant seen == Flatten(shapes[..s]) + shapes[s][..j]
        invariant Indexed(unique, vertices, indices, seen)
      {
        unique, vertices, indices := AddVertex(unique, vertices, indices, seen, shapes[s][j]);
        seen := seen + [shapes[s][j]];
        assert shapes[s][..j + 1] == shapes[s][..j] + [shapes[s][j]];
      }
      assert shapes[s][..|shapes[s]|] == shapes[s];
    }
    assert shapes[..|shapes|] == shapes;
  }
}
