/**
 * The fixed layout of the device viewer: the three-entry slot table that
 * `loadModels` indexes by a device's position in the list, and the camera
 * pose that `focusOnModel` computes for a node.  All slots are integral, so
 * vectors are integer triples.
 */
module Layout {
  import opened Wrappers

  datatype Vec3 = Vec3(x: int, y: int, z: int)

  /** A camera pose: where the camera stands and the point it looks at. */
  datatype Pose = Pose(position: Vec3, lookAt: Vec3)

  /** The `positions` table: one slot per index 0, 1, 2 and nothing beyond. */
  const POSITIONS: seq<Vec3> := [Vec3(-3, 0, 0), Vec3(0, 0, 0), Vec3(3, 0, 0)]

  function Plus(a: Vec3, b: Vec3): Vec3 {
    Vec3(a.x + b.x, a.y + b.y, a.z + b.z)
  }

  /** `positions[index]`: a slot for the first three indices, `undefined` for the rest. */
  function Slot(index: nat): (r: Option<Vec3>)
    ensures r.Some? <==> index < 3
    ensures r.Some? ==> r.value.y == 0 && r.value.z == 0
    ensures index == 0 ==> r == Some(Vec3(-3, 0, 0))
    ensures index == 1 ==> r == Some(Vec3(0, 0, 0))
    ensures index == 2 ==> r == Some(Vec3(3, 0, 0))
  {
    if index < |POSITIONS| then Some(POSITIONS[index]) else None
  }

  /** p is one of the slots of the table, stated on its coordinates. */
  predicate IsSlot(p: Vec3) {
    p.y == 0 && p.z == 0 && (p.x == -3 || p.x == 0 || p.x == 3)
  }

  /** The slots are exactly the entries of the table. */
  lemma SlotsAreTable(p: Vec3)
    ensures IsSlot(p) <==> p in POSITIONS
  {
  }

  /** The three slots are pairwise distinct. */
  lemma SlotsDistinct(i: nat, j: nat)
    requires i < 3 && j < 3 && i != j
    ensures Slot(i).value != Slot(j).value
  {
  }

  /** The slots are symmetric about the origin: slot i mirrors slot 2 - i. */
  lemma SlotsSymmetric(i: nat)
    requires i < 3
    ensures Slot(i).value.x == -Slot(2 - i).value.x
    ensures Slot(1).value == Vec3(0, 0, 0)
  {
  }

  /** `focusOnModel`: the camera goes to the node position plus (0, 1, 3) and looks at the node. */
  function FocusPose(node: Vec3): (r: Pose)
    ensures r.lookAt == node
    ensures r.position.x == node.x && r.position.y == node.y + 1 && r.position.z == node.z + 3
  {
    Pose(Plus(node, Vec3(0, 1, 3)), node)
  }

  /** Distinct nodes give distinct focus poses, and the camera never stands at the node it looks at. */
  lemma FocusPoseInjective(a: Vec3, b: Vec3)
    ensures FocusPose(a) == FocusPose(b) <==> a == b
    ensures FocusPose(a).position != FocusPose(a).lookAt
  {
  }

  /** The focus targets of the three slots: (-3, 1, 3), (0, 1, 3) and (3, 1, 3), looking at the slot. */
  lemma FocusOnSlot(i: nat)
    requires i < 3
    ensures FocusPose(Slot(i).value) == Pose(Vec3(3 * i - 3, 1, 3), Vec3(3 * i - 3, 0, 0))
  {
    var p := Slot(i).value;
    assert p == Vec3(3 * i - 3, 0, 0) by {
      if i == 0 {
      } else if i == 1 {
      } else {
      }
    }
  }
}
