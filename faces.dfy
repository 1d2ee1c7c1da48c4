/** Turning the mesh's indexed faces into the triangle array the STL writer
    serialises: each face's three vertex indices replaced by the vertices. */
module Faces {

  /** A vertex of the extracted surface. */
  datatype Point = Point(x: real, y: real, z: real)

  /** A face: three indices into the vertex list (one row of `faces`). */
  type Face = f: seq<nat> | |f| == 3 witness [0, 0, 0]

  /** Every index of every face names a vertex. */
  predicate IndicesInRange(verts: seq<Point>, faces: seq<Face>) {
    forall i, j :: 0 <= i < |faces| && 0 <= j < 3 ==> faces[i][j] < |verts|
  }

  /** Allocates the zeroed `nfaces` by 3 array of the mesh record and fills
      row `i`, column `j` with the vertex `faces[i][j]` names. */
  method ExpandFaces(verts: seq<Point>, faces: seq<Face>) returns (vectors: array2<Point>)
    requires IndicesInRange(verts, faces)
    ensures fresh(vectors)
    ensures vectors.Length0 == |faces| && vectors.Length1 == 3
    ensures forall i, j :: 0 <= i < |faces| && 0 <= j < 3 ==> vectors[i, j] == verts[faces[i][j]]
  {
    vectors := new Point[|faces|, 3]((i, j) => Point(0.0, 0.0, 0.0));
    for i := 0 to |faces|
      invariant forall i', j :: 0 <= i' < i && 0 <= j < 3 ==> vectors[i', j] == verts[faces[i'][j]]
    {
      for j := 0 to 3
        invariant forall i', j' :: 0 <= i' < i && 0 <= j' < 3 ==> vectors[i', j'] == verts[faces[i'][j']]
        invariant forall j' :: 0 <= j' < j ==> vectors[i, j'] == verts[faces[i][j']]
      {
        vectors[i, j] := verts[faces[i][j]];
      }
    }
  }
}
