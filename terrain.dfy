/**
 * The combat terrain of combat-mechanics.js: the floor mesh's vertex buffer
 * is flattened in a square zone around the fight, with every lowered height
 * saved, and the saved heights are written back afterwards.
 *
 * The buffer is the position attribute's array: vertex `i` has its x, y and
 * z at `3 * i`, `3 * i + 1` and `3 * i + 2`, and the mesh has
 * `Length / 3` vertices.
 */
module Terrain {

  /** The base level the zone is flattened to. */
  const Floor: real := -0.5

  /** `flattenAround`'s default radius. */
  const DefaultRadius: real := 4.5

  function Abs(r: real): (a: real)
    ensures a >= 0.0 && (a == r || a == -r)
  {
    if r < 0.0 then -r else r
  }

  function VertexCount(buf: seq<real>): nat
  {
    |buf| / 3
  }

  function X(buf: seq<real>, i: nat): real
    requires i < VertexCount(buf)
  {
    buf[3 * i]
  }

  function Y(buf: seq<real>, i: nat): real
    requires i < VertexCount(buf)
  {
    buf[3 * i + 1]
  }

  function Z(buf: seq<real>, i: nat): real
    requires i < VertexCount(buf)
  {
    buf[3 * i + 2]
  }

  /** Vertex `i` lies in the open square of half-width `radius` around (x, z). */
  predicate InZone(buf: seq<real>, i: nat, x: real, z: real, radius: real)
    requires i < VertexCount(buf)
  {
    Abs(X(buf, i) - x) < radius && Abs(Z(buf, i) - z) < radius
  }

  /** Vertex `i` is in the zone and above the base level, so `flattenAround` lowers it. */
  predicate Lowered(buf: seq<real>, i: nat, x: real, z: real, radius: real)
    requires i < VertexCount(buf)
  {
    InZone(buf, i, x, z, radius) && Y(buf, i) > Floor
  }

  /** Buffer entry `j` is the height of a lowered vertex. */
  predicate LoweredEntry(buf: seq<real>, j: int, x: real, z: real, radius: real)
  {
    0 <= j < 3 * VertexCount(buf) && j % 3 == 1 && Lowered(buf, j / 3, x, z, radius)
  }

  /** The buffer after `flattenAround(mesh, x, z, radius)`. */
  function Flatten(buf: seq<real>, x: real, z: real, radius: real): (flat: seq<real>)
    ensures |flat| == |buf|
  {
    seq(|buf|, j requires 0 <= j < |buf| => if LoweredEntry(buf, j, x, z, radius) then Floor else buf[j])
  }

  /** The heights `flattenAround` saves: exactly the lowered vertices, with their heights before. */
  function Saved(buf: seq<real>, x: real, z: real, radius: real): (saved: map<nat, real>)
    ensures forall i | i in saved :: i < VertexCount(buf) && Lowered(buf, i, x, z, radius) && saved[i] == Y(buf, i)
    ensures forall i: nat | i < VertexCount(buf) && Lowered(buf, i, x, z, radius) :: i in saved
  {
    map i: nat | i < VertexCount(buf) && Lowered(buf, i, x, z, radius) :: Y(buf, i)
  }

  /** The buffer after `restore`: every saved height written back (writes past the end are dropped). */
  function Restored(buf: seq<real>, saved: map<nat, real>): (back: seq<real>)
    ensures |back| == |buf|
  {
    seq(|buf|, j requires 0 <= j < |buf| => if j % 3 == 1 && j / 3 in saved then saved[j / 3] else buf[j])
  }

  /** Flattening changes only the heights of lowered vertices, and sets them to the base level. */
  lemma FlattenChanges(buf: seq<real>, x: real, z: real, radius: real, j: nat)
    requires j < |buf|
    ensures Flatten(buf, x, z, radius)[j] != buf[j] <==> LoweredEntry(buf, j, x, z, radius)
    ensures LoweredEntry(buf, j, x, z, radius) ==> Flatten(buf, x, z, radius)[j] == Floor
    ensures j % 3 != 1 ==> Flatten(buf, x, z, radius)[j] == buf[j]
  {
  }

  /** After flattening, no vertex of the zone stands above the base level. */
  lemma FlattenLevelsZone(buf: seq<real>, x: real, z: real, radius: real, i: nat)
    requires i < VertexCount(buf) && InZone(buf, i, x, z, radius)
    ensures i < VertexCount(Flatten(buf, x, z, radius))
    ensures Y(Flatten(buf, x, z, radius), i) <= Floor
  {
    var flat := Flatten(buf, x, z, radius);
    assert flat[3 * i] == buf[3 * i] && flat[3 * i + 2] == buf[3 * i + 2];
    assert (3 * i + 1) / 3 == i;
  }

  /** The saved vertices are exactly those whose height flattening changed. */
  lemma SavedExactlyChanged(buf: seq<real>, x: real, z: real, radius: real, i: nat)
    requires i < VertexCount(buf)
    ensures i < VertexCount(Flatten(buf, x, z, radius))
    ensures i in Saved(buf, x, z, radius) <==> Y(Flatten(buf, x, z, radius), i) != Y(buf, i)
  {
    assert (3 * i + 1) / 3 == i;
  }

  /** Restoring the saved heights undoes the flattening exactly. */
  lemma {:induction false} RestoreUndoesFlatten(buf: seq<real>, x: real, z: real, radius: real)
    ensures Restored(Flatten(buf, x, z, radius), Saved(buf, x, z, radius)) == buf
  {
    var flat := Flatten(buf, x, z, radius);
    var saved := Saved(buf, x, z, radius);
    var back := Restored(flat, saved);
    forall j | 0 <= j < |buf| ensures back[j] == buf[j] {
      if j % 3 == 1 && j / 3 in saved {
        assert 3 * (j / 3) + 1 == j;
      }
    }
  }

  /** With nothing saved, restoring changes nothing. */
  lemma RestoreNothing(buf: seq<real>)
    ensures Restored(buf, map[]) == buf
  {
  }

  /** The buffer once the loop of `flattenAround` has visited the first `n` vertices. */
  function FlattenedBelow(buf: seq<real>, n: nat, x: real, z: real, radius: real): (part: seq<real>)
    ensures |part| == |buf|
  {
    seq(|buf|, j requires 0 <= j < |buf| => if j < 3 * n && LoweredEntry(buf, j, x, z, radius) then Floor else buf[j])
  }

  /** The heights saved once the first `n` vertices have been visited. */
  function SavedBelow(buf: seq<real>, n: nat, x: real, z: real, radius: real): map<nat, real>
  {
    map i: nat | i < n && i < VertexCount(buf) && Lowered(buf, i, x, z, radius) :: Y(buf, i)
  }

  lemma FlattenStep(buf: seq<real>, i: nat, x: real, z: real, radius: real)
    requires i < VertexCount(buf)
    ensures var part := FlattenedBelow(buf, i, x, z, radius);
            part[3 * i] == X(buf, i) && part[3 * i + 1] == Y(buf, i) && part[3 * i + 2] == Z(buf, i)
    ensures var part := FlattenedBelow(buf, i, x, z, radius);
            FlattenedBelow(buf, i + 1, x, z, radius)
            == (if Lowered(buf, i, x, z, radius) then part[3 * i + 1 := Floor] else part)
    ensures SavedBelow(buf, i + 1, x, z, radius)
            == (if Lowered(buf, i, x, z, radius) then SavedBelow(buf, i, x, z, radius)[i := Y(buf, i)]
                else SavedBelow(buf, i, x, z, radius))
  {
    var part := FlattenedBelow(buf, i, x, z, radius);
    var next := FlattenedBelow(buf, i + 1, x, z, radius);
    var want := if Lowered(buf, i, x, z, radius) then part[3 * i + 1 := Floor] else part;
    forall j | 0 <= j < |buf| ensures next[j] == want[j] {
      if 3 * i <= j < 3 * i + 3 {
        assert j / 3 == i;
      }
    }
    var saved := SavedBelow(buf, i, x, z, radius);
    var more := SavedBelow(buf, i + 1, x, z, radius);
    assert more.Keys == (if Lowered(buf, i, x, z, radius) then saved.Keys + {i} else saved.Keys);
  }

  lemma FlattenDone(buf: seq<real>, x: real, z: real, radius: real)
    ensures FlattenedBelow(buf, VertexCount(buf), x, z, radius) == Flatten(buf, x, z, radius)
    ensures SavedBelow(buf, VertexCount(buf), x, z, radius) == Saved(buf, x, z, radius)
  {
  }

  /** The buffer once the saved heights of the vertices outside `todo` have been written back. */
  function RestoredBesides(buf: seq<real>, saved: map<nat, real>, todo: set<nat>): (part: seq<real>)
    ensures |part| == |buf|
  {
    seq(|buf|, j requires 0 <= j < |buf| => if j % 3 == 1 && j / 3 in saved && j / 3 !in todo then saved[j / 3] else buf[j])
  }

  lemma RestoreStep(buf: seq<real>, saved: map<nat, real>, todo: set<nat>, i: nat)
    requires i in todo && i in saved
    ensures var part := RestoredBesides(buf, saved, todo);
            RestoredBesides(buf, saved, todo - {i})
            == if 3 * i + 1 < |buf| then part[3 * i + 1 := saved[i]] else part
  {
    assert forall j | 0 <= j < |buf| && j % 3 == 1 :: j / 3 == i <==> j == 3 * i + 1;
  }

  lemma RestoreDone(buf: seq<real>, saved: map<nat, real>)
    ensures RestoredBesides(buf, saved, saved.Keys) == buf
    ensures RestoredBesides(buf, saved, {}) == Restored(buf, saved)
  {
  }

  /** The `CombatTerrain` object and its `flattenedVertices` map. */
  class CombatTerrain {
    var flattened: map<nat, real>

    constructor ()
      ensures flattened == map[]
    {
      flattened := map[];
    }

    /** `flattenAround(floorMesh, x, z, radius)`; a missing mesh is a no-op. */
    method FlattenAround(mesh: array?<real>, x: real, z: real, radius: real := DefaultRadius)
      modifies this, mesh
      ensures mesh == null ==> flattened == old(flattened)
      ensures mesh != null ==> mesh[..] == Flatten(old(mesh[..]), x, z, radius)
      ensures mesh != null ==> flattened == Saved(old(mesh[..]), x, z, radius)
    {
      if mesh == null {
        return;
      }
      ghost var buf := mesh[..];
      flattened := map[];
      var count := mesh.Length / 3;
      for i := 0 to count
        invariant mesh[..] == FlattenedBelow(buf, i, x, z, radius)
        invariant flattened == SavedBelow(buf, i, x, z, radius)
      {
        FlattenStep(buf, i, x, z, radius);
        var vx := mesh[3 * i];
        var vz := mesh[3 * i + 2];
        if Abs(vx - x) < radius && Abs(vz - z) < radius {
          var vy := mesh[3 * i + 1];
          if vy > Floor {
            flattened := flattened[i := vy];
            mesh[3 * i + 1] := Floor;
          }
        }
      }
      FlattenDone(buf, x, z, radius);
    }

    /** `restore(floorMesh)`: the saved heights go back and the map is emptied. */
    method Restore(mesh: array?<real>)
      modifies this, mesh
      ensures mesh == null || old(flattened) == map[] ==> flattened == old(flattened)
      ensures mesh != null ==> mesh[..] == Restored(old(mesh[..]), old(flattened))
      ensures mesh != null && old(flattened) != map[] ==> flattened == map[]
    {
      if mesh == null || |flattened| == 0 {
        if mesh != null {
          assert mesh[..] == Restored(mesh[..], flattened);
        }
        return;
      }
      ghost var buf := mesh[..];
      var saved := flattened;
      var todo := saved.Keys;
      RestoreDone(buf, saved);
      while todo != {}
        invariant todo <= saved.Keys
        invariant mesh[..] == RestoredBesides(buf, saved, todo)
        decreases |todo|
      {
        var i :| i in todo;
        RestoreStep(buf, saved, todo, i);
        if 3 * i + 1 < mesh.Length {
          mesh[3 * i + 1] := saved[i];
        }
        todo := todo - {i};
      }
      flattened := map[];
    }
  }
}
