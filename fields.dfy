// Gravity sources: the five shapes, the GravityField record that wraps a
// shape together with its priority, camera-settings id and flags, and the
// FieldImpl dispatch that derives containment, altitude and up vectors
// from whatever subset of them a shape supplies itself.

module GravityFields {
  import opened FixedMath

  /** An unsigned byte (`u8`). */
  type Byte = x: int | 0 <= x < 0x100

  /** Fix12 value of 30000.0, the offset of the trivial altitude. */
  const TRIVIAL_ALTITUDE_OFFSET: int := 30000 * ONE12

  /** The world up vector (0, 1, 0) in Q12. */
  function WorldUp(): Vec3 { Vec3(0, ONE12, 0) }

  datatype Shape =
    | DefaultShape                                                          // DefaultGravityField
    | TrivialCylinder(bottom: Vec3, radius: int, height: int)               // TrivialCylinderField
    | Radial(center: Vec3, radius: int)                                     // RadialField
    | Axial(p0: Vec3, p1: Vec3, v: Vec3, radius: int)                       // AxialField
    | HomCylinder(p0: Vec3, p1: Vec3, up: Vec3, radius: int, height: int)   // HomogeneousCylinderField

  // ---------------------------------------------------------------------
  // What each shape class supplies (the compile-time `requires` tests of FieldImpl)

  /** The shape has `GetUpVector()`: its up vector is one constant. */
  predicate SuppliesUpVector(s: Shape)
  {
    s.DefaultShape? || s.TrivialCylinder? || s.HomCylinder?
  }

  /** The shape derives from TrivialField. */
  predicate DerivesFromTrivial(s: Shape)
  {
    s.DefaultShape? || s.TrivialCylinder?
  }

  /** The shape has `CalculateAltitudeVector(res, pos)`; the others have `GetAltitude(pos)`. */
  predicate SuppliesAltitudeVector(s: Shape)
  {
    s.Radial? || s.Axial?
  }

  /** The shape has `Contains(pos)`; the others have `Contains(pos, altitude)`. */
  predicate SuppliesContains(s: Shape)
  {
    s.DefaultShape? || s.TrivialCylinder?
  }

  // ---------------------------------------------------------------------
  // The shapes' own members

  function ShapeUpVector(s: Shape): Vec3
    requires SuppliesUpVector(s)
  {
    match s
    case HomCylinder(_, _, up, _, _) => up
    case _ => WorldUp()
  }

  /** TrivialField::GetAltitude and HomogeneousCylinderField::GetAltitude. */
  function ShapeAltitude(lib: Lib, s: Shape, pos: Vec3): int
    requires !SuppliesAltitudeVector(s)
  {
    match s
    case HomCylinder(p0, _, up, _, _) => Dot12(lib, up, Sub(pos, p0))
    case _ => pos.y + TRIVIAL_ALTITUDE_OFFSET
  }

  /** AxialField::CalculateAltitudeVector, by cases. */
  function AxialAltitudeVector(lib: Lib, p0: Vec3, p1: Vec3, v: Vec3, pos: Vec3): (r: Vec3)
    ensures Dot12(lib, v, Sub(pos, p1)) > 0 ==> r == Sub(pos, p1)
    ensures Dot12(lib, v, Sub(pos, p1)) <= 0 && Dot12(lib, v, Sub(pos, p0)) < 0 ==> r == Sub(pos, p0)
    ensures Dot12(lib, v, Sub(pos, p1)) <= 0 && Dot12(lib, v, Sub(pos, p0)) >= 0 ==>
              r == Sub(Sub(pos, p0), Scale12(lib, v, Dot12(lib, v, Sub(pos, p0))))
  {
    var beyond := Sub(pos, p1);
    if Dot12(lib, v, beyond) > 0 then beyond
    else
      var rel := Sub(pos, p0);
      var dot := Dot12(lib, v, rel);
      if dot >= 0 then Sub(rel, Scale12(lib, v, dot)) else rel
  }

  function ShapeAltitudeVector(lib: Lib, s: Shape, pos: Vec3): Vec3
    requires SuppliesAltitudeVector(s)
  {
    match s
    case Radial(center, _) => Sub(pos, center)
    case Axial(p0, p1, v, _) => AxialAltitudeVector(lib, p0, p1, v, pos)
  }

  function ShapeContains(lib: Lib, s: Shape, pos: Vec3): bool
    requires SuppliesContains(s)
  {
    match s
    case DefaultShape => true
    case TrivialCylinder(bottom, radius, height) =>
      bottom.y <= pos.y && pos.y <= bottom.y + height && HorzDist(lib, bottom, pos) <= radius
  }

  /** HomogeneousCylinderField::DistToAxis: distance from pos - p0 to its projection on the axis. */
  function DistToAxis(lib: Lib, p0: Vec3, up: Vec3, pos: Vec3): int
  {
    var rel := Sub(pos, p0);
    Dist(lib, rel, Scale12(lib, up, Dot12(lib, rel, up)))
  }

  function ShapeContainsAt(lib: Lib, s: Shape, pos: Vec3, altitude: int): bool
    requires !SuppliesContains(s)
  {
    match s
    case Radial(_, radius) => altitude <= radius
    case Axial(_, _, _, radius) => altitude <= radius
    case HomCylinder(p0, _, up, radius, height) =>
      0 <= altitude && altitude <= height && DistToAxis(lib, p0, up, pos) <= radius
  }

  // ---------------------------------------------------------------------
  // Construction of the shapes from path nodes

  function MakeTrivialCylinder(lib: Lib, node0: Vec3, node1: Vec3): (s: Shape)
    ensures s.TrivialCylinder? && s.bottom == node0
    ensures s.height >= 0 && (s.height == node1.y - node0.y || s.height == node0.y - node1.y)
    ensures s.radius == HorzDist(lib, node0, node1)
  {
    TrivialCylinder(node0, HorzDist(lib, node0, node1), Abs(node1.y - node0.y))
  }

  function MakeRadial(lib: Lib, node0: Vec3, node1: Vec3): Shape
  {
    Radial(node0, Dist(lib, node0, node1))
  }

  function MakeAxial(lib: Lib, p0: Vec3, p1: Vec3, radius: int): Shape
  {
    Axial(p0, p1, lib.normalize12(Sub(p1, p0)), radius)
  }

  function MakeHomCylinder(lib: Lib, node0: Vec3, node1: Vec3, node2: Vec3): Shape
  {
    var up := lib.normalize12(Sub(node1, node0));
    HomCylinder(node0, node1, up, DistToAxis(lib, node0, up, node2), Dist(lib, node0, node1))
  }

  // ---------------------------------------------------------------------
  // FieldImpl<Base>: the virtual members every field has

  /** CalculateUpVectorQ12. */
  function UpVectorQ12(lib: Lib, s: Shape, pos: Vec3): Vec3
  {
    if SuppliesUpVector(s) then ShapeUpVector(s)
    else lib.normalize12(AltitudeVector(lib, s, pos))
  }

  /** CalculateUpVectorQ24. */
  function UpVectorQ24(lib: Lib, s: Shape, pos: Vec3): Vec3
  {
    if SuppliesUpVector(s) then FromQ12(ShapeUpVector(s))
    else Normalized24(lib, AltitudeVector(lib, s, pos))
  }

  /** CalculateAltitudeVector. */
  function AltitudeVector(lib: Lib, s: Shape, pos: Vec3): Vec3
  {
    if SuppliesAltitudeVector(s) then ShapeAltitudeVector(lib, s, pos)
    else Scale12(lib, ShapeUpVector(s), ShapeAltitude(lib, s, pos))
  }

  /** GetAltitude. */
  function Altitude(lib: Lib, s: Shape, pos: Vec3): int
  {
    if SuppliesAltitudeVector(s) then Len(lib, ShapeAltitudeVector(lib, s, pos))
    else ShapeAltitude(lib, s, pos)
  }

  /** GetAltitudeAndUpVectorQ24: the altitude, and the Q24 up vector written to `res`. */
  function AltitudeAndUpVectorQ24(lib: Lib, s: Shape, pos: Vec3): (int, Vec3)
  {
    if SuppliesUpVector(s) then (ShapeAltitude(lib, s, pos), FromQ12(ShapeUpVector(s)))
    else
      var res := ShapeAltitudeVector(lib, s, pos);
      var altitude := Len(lib, res);
      (altitude, Vec3(lib.divQ24(res.x, altitude), lib.divQ24(res.y, altitude), lib.divQ24(res.z, altitude)))
  }

  /** GetHomogeneousUpVectorQ12: the constant up vector, or null. */
  function HomogeneousUpVectorQ12(s: Shape): Option<Vec3>
  {
    if SuppliesUpVector(s) then Some(ShapeUpVector(s)) else None
  }

  /** Contains(pos). */
  function Contains(lib: Lib, s: Shape, pos: Vec3): bool
  {
    if SuppliesContains(s) then ShapeContains(lib, s, pos)
    else ShapeContainsAt(lib, s, pos, Altitude(lib, s, pos))
  }

  /** Contains(pos, altitude). */
  function ContainsAt(lib: Lib, s: Shape, pos: Vec3, altitude: int): bool
  {
    if SuppliesContains(s) then ShapeContains(lib, s, pos)
    else ShapeContainsAt(lib, s, pos, altitude)
  }

  datatype Option<T> = None | Some(value: T)

  // ---------------------------------------------------------------------
  // GravityField

  datatype Field = Field(shape: Shape, priority: S16, camSettingsID: Byte, homogeneous: bool, trivial: bool)

  /** A level path: three parameter bytes and the control points. */
  datatype Path = Path(param1: Byte, param2: Byte, param3: Byte, nodes: seq<Vec3>)

  /** The default-constructed field (the static defaultGravityField). */
  function DefaultField(): (f: Field)
    ensures f.priority == -1 && f.camSettingsID == 0xff && f.homogeneous && f.trivial
    ensures f.shape == DefaultShape
  {
    Field(DefaultShape, -1, 0xff, true, true)
  }

  /**
   * FieldImpl<F>(pathPtr, ...): priority from param2, camera settings from
   * param3, homogeneous iff the shape supplies an up vector, trivial iff
   * it derives from TrivialField.
   */
  function PathField(path: Path, s: Shape): (f: Field)
    ensures f.shape == s && f.priority == path.param2 && f.camSettingsID == path.param3
    ensures f.homogeneous <==> (s.DefaultShape? || s.TrivialCylinder? || s.HomCylinder?)
    ensures f.trivial <==> (s.DefaultShape? || s.TrivialCylinder?)
  {
    Field(s, path.param2, path.param3, SuppliesUpVector(s), DerivesFromTrivial(s))
  }

  /**
   * CalculateFirstFieldMatrix: the identity for a trivial field; otherwise
   * the spherical basis around the up vector at pos, started from the
   * view direction for the player (actor 0xbf) and from the x axis with
   * the sign of the up vector's y for every other actor.
   */
  function FirstFieldMatrix(lib: Lib, f: Field, pos: Vec3, actorID: int, viewPos: Vec3): (m: Mat3)
    ensures f.trivial ==> m == Identity()
    ensures !f.trivial ==> m.c1 == NormalizedTwice12(lib, UpVectorQ24(lib, f.shape, pos))
  {
    if f.trivial then Identity()
    else
      var upAxis := UpVectorQ24(lib, f.shape, pos);
      if actorID == 0xbf then
        var yAxis := UpVectorQ24(lib, f.shape, viewPos);
        var xAxis := Normalized24(lib, Cross24(lib, yAxis, Sub(pos, viewPos)));
        SphericalMatrixField(lib, xAxis, yAxis, upAxis)
      else
        var xAxis := Vec3(ONE24, 0, 0);
        var yAxis := Vec3(0, if upAxis.y < 0 then -ONE24 else ONE24, 0);
        SphericalMatrixField(lib, xAxis, yAxis, upAxis)
  }

  // ---------------------------------------------------------------------
  // The FieldImpl fallbacks

  /** Every shape: Contains(pos) is Contains(pos, GetAltitude(pos)). */
  lemma ContainsIsContainsAtAltitude(lib: Lib, s: Shape, pos: Vec3)
    ensures Contains(lib, s, pos) == ContainsAt(lib, s, pos, Altitude(lib, s, pos))
  {
  }

  /** A position-only shape ignores the altitude argument. */
  lemma PositionOnlyIgnoresAltitude(lib: Lib, s: Shape, pos: Vec3, altitude: int)
    requires SuppliesContains(s)
    ensures ContainsAt(lib, s, pos, altitude) == Contains(lib, s, pos)
  {
  }

  /** An altitude-vector shape measures altitude as the length of that vector. */
  lemma AltitudeIsLength(lib: Lib, s: Shape, pos: Vec3)
    requires SuppliesAltitudeVector(s)
    ensures Altitude(lib, s, pos) == Len(lib, AltitudeVector(lib, s, pos))
  {
  }

  /** An altitude shape's altitude vector is its up vector scaled by the altitude. */
  lemma AltitudeVectorFromAltitude(lib: Lib, s: Shape, pos: Vec3)
    requires !SuppliesAltitudeVector(s)
    ensures AltitudeVector(lib, s, pos) == Scale12(lib, UpVectorQ12(lib, s, pos), Altitude(lib, s, pos))
  {
  }

  /** GetAltitudeAndUpVectorQ24 returns GetAltitude, and the up vector of CalculateUpVectorQ24 where it is constant. */
  lemma AltitudeAndUpVectorAgree(lib: Lib, s: Shape, pos: Vec3)
    ensures AltitudeAndUpVectorQ24(lib, s, pos).0 == Altitude(lib, s, pos)
    ensures SuppliesUpVector(s) ==> AltitudeAndUpVectorQ24(lib, s, pos).1 == UpVectorQ24(lib, s, pos)
  {
  }

  /** The homogeneous up vector is present exactly for homogeneous shapes, and is then the up vector everywhere. */
  lemma HomogeneousUpVector(lib: Lib, s: Shape, pos: Vec3)
    ensures HomogeneousUpVectorQ12(s).Some? <==> PathField(Path(0, 0, 0, []), s).homogeneous
    ensures HomogeneousUpVectorQ12(s).Some? ==> HomogeneousUpVectorQ12(s).value == UpVectorQ12(lib, s, pos)
    ensures HomogeneousUpVectorQ12(s).Some? ==> FromQ12(HomogeneousUpVectorQ12(s).value) == UpVectorQ24(lib, s, pos)
  {
  }

  // ---------------------------------------------------------------------
  // TrivialField (the default field and trivial cylinders)

  /** The up vector is (0, 1, 0) wherever the actor is. */
  lemma TrivialUpVector(lib: Lib, s: Shape, pos: Vec3)
    requires DerivesFromTrivial(s)
    ensures UpVectorQ12(lib, s, pos) == Vec3(0, ONE12, 0)
    ensures UpVectorQ24(lib, s, pos) == Vec3(0, ONE24, 0)
  {
  }

  /** The altitude is pos.y + 30000: it ignores x and z and grows strictly with y. */
  lemma TrivialAltitude(lib: Lib, s: Shape, a: Vec3, b: Vec3)
    requires DerivesFromTrivial(s)
    ensures Altitude(lib, s, a) == a.y + 30000 * ONE12
    ensures a.y == b.y ==> Altitude(lib, s, a) == Altitude(lib, s, b)
    ensures a.y < b.y ==> Altitude(lib, s, a) < Altitude(lib, s, b)
  {
  }

  // ---------------------------------------------------------------------
  // TrivialCylinderField

  /** A trivial cylinder contains exactly the points between its bottom and top within its horizontal radius. */
  lemma TrivialCylinderContains(lib: Lib, node0: Vec3, node1: Vec3, pos: Vec3)
    ensures Contains(lib, MakeTrivialCylinder(lib, node0, node1), pos) <==>
              node0.y <= pos.y <= node0.y + Abs(node1.y - node0.y) && HorzDist(lib, node0, pos) <= HorzDist(lib, node0, node1)
    ensures var s := MakeTrivialCylinder(lib, node0, node1);
            Contains(lib, s, pos) ==> Altitude(lib, s, node0) <= Altitude(lib, s, pos) <= Altitude(lib, s, node0) + s.height
  {
  }

  /** The bottom centre is always inside. */
  lemma TrivialCylinderBottomContained(lib: Lib, node0: Vec3, node1: Vec3)
    requires LengthLaws(lib)
    ensures Contains(lib, MakeTrivialCylinder(lib, node0, node1), node0)
  {
    assert Sub(node0, node0) == Zero();
  }

  // ---------------------------------------------------------------------
  // RadialField

  /** A radial field contains the ball of its radius around the centre. */
  lemma RadialContains(lib: Lib, node0: Vec3, node1: Vec3, pos: Vec3)
    ensures AltitudeVector(lib, MakeRadial(lib, node0, node1), pos) == Sub(pos, node0)
    ensures Contains(lib, MakeRadial(lib, node0, node1), pos) <==> Dist(lib, pos, node0) <= Dist(lib, node0, node1)
    ensures forall alt :: ContainsAt(lib, MakeRadial(lib, node0, node1), pos, alt) <==> alt <= Dist(lib, node0, node1)
  {
  }

  /** The centre has altitude 0 and is inside. */
  lemma RadialCenterContained(lib: Lib, node0: Vec3, node1: Vec3)
    requires LengthLaws(lib)
    ensures MakeRadial(lib, node0, node1).radius >= 0
    ensures Altitude(lib, MakeRadial(lib, node0, node1), node0) == 0
    ensures Contains(lib, MakeRadial(lib, node0, node1), node0)
  {
    assert Sub(node0, node0) == Zero();
  }

  // ---------------------------------------------------------------------
  // AxialField

  /** An axial field contains the capsule of its radius around the segment, end caps included. */
  lemma AxialContains(lib: Lib, p0: Vec3, p1: Vec3, radius: int, pos: Vec3)
    ensures Contains(lib, MakeAxial(lib, p0, p1, radius), pos) <==>
              Len(lib, AxialAltitudeVector(lib, p0, p1, lib.normalize12(Sub(p1, p0)), pos)) <= radius
    ensures MakeAxial(lib, p0, p1, radius).v == lib.normalize12(Sub(p1, p0))
  {
  }

  lemma Dot12Zero(lib: Lib, v: Vec3)
    requires FixProduct(lib.mul12, ONE12)
    ensures Dot12(lib, v, Zero()) == 0
    ensures Scale12(lib, v, 0) == Zero()
  {
    assert lib.mul12(v.x, 0) == lib.mul12(0, v.x);
    assert lib.mul12(v.y, 0) == lib.mul12(0, v.y);
    assert lib.mul12(v.z, 0) == lib.mul12(0, v.z);
  }

  /**
   * The start point has altitude vector 0 (so altitude 0, and it is
   * inside for any radius >= 0) unless it lies beyond the far end along
   * the axis direction.
   */
  lemma AxialStartContained(lib: Lib, p0: Vec3, p1: Vec3, radius: int)
    requires FixProduct(lib.mul12, ONE12) && LengthLaws(lib)
    requires Dot12(lib, lib.normalize12(Sub(p1, p0)), Sub(p0, p1)) <= 0
    ensures AltitudeVector(lib, MakeAxial(lib, p0, p1, radius), p0) == Zero()
    ensures Altitude(lib, MakeAxial(lib, p0, p1, radius), p0) == 0
    ensures Contains(lib, MakeAxial(lib, p0, p1, radius), p0) <==> radius >= 0
  {
    var v := lib.normalize12(Sub(p1, p0));
    assert Sub(p0, p0) == Zero();
    Dot12Zero(lib, v);
    assert Sub(Zero(), Zero()) == Zero();
  }

  // ---------------------------------------------------------------------
  // HomogeneousCylinderField

  /** The cylinder's up vector is the normalised axis, whatever the position. */
  lemma HomCylinderUpVector(lib: Lib, node0: Vec3, node1: Vec3, node2: Vec3, pos: Vec3)
    ensures UpVectorQ12(lib, MakeHomCylinder(lib, node0, node1, node2), pos) == lib.normalize12(Sub(node1, node0))
    ensures Altitude(lib, MakeHomCylinder(lib, node0, node1, node2), pos) ==
              Dot12(lib, lib.normalize12(Sub(node1, node0)), Sub(pos, node0))
  {
  }

  /** The cylinder contains the points between its end discs within its radius of the axis. */
  lemma HomCylinderContains(lib: Lib, node0: Vec3, node1: Vec3, node2: Vec3, pos: Vec3)
    ensures var s := MakeHomCylinder(lib, node0, node1, node2);
            Contains(lib, s, pos) <==>
              0 <= Altitude(lib, s, pos) <= Dist(lib, node0, node1) &&
              DistToAxis(lib, node0, s.up, pos) <= DistToAxis(lib, node0, s.up, node2)
  {
  }

  /** A point on the axis start is at distance 0 from the axis. */
  lemma DistToAxisAtStart(lib: Lib, p0: Vec3, up: Vec3)
    requires FixProduct(lib.mul12, ONE12) && LengthLaws(lib)
    ensures DistToAxis(lib, p0, up, p0) == 0
  {
    assert Sub(p0, p0) == Zero();
    assert Dot12(lib, Zero(), up) == 0 by {
      assert lib.mul12(0, up.x) == 0 && lib.mul12(0, up.y) == 0 && lib.mul12(0, up.z) == 0;
    }
    Dot12Zero(lib, up);
    assert Sub(Zero(), Zero()) == Zero();
  }

  /** The start point has altitude 0 and is inside. */
  lemma HomCylinderStartContained(lib: Lib, node0: Vec3, node1: Vec3, node2: Vec3)
    requires FixProduct(lib.mul12, ONE12) && LengthLaws(lib)
    ensures Altitude(lib, MakeHomCylinder(lib, node0, node1, node2), node0) == 0
    ensures Contains(lib, MakeHomCylinder(lib, node0, node1, node2), node0)
  {
    var up := lib.normalize12(Sub(node1, node0));
    assert Sub(node0, node0) == Zero();
    Dot12Zero(lib, up);
    DistToAxisAtStart(lib, node0, up);
  }
}
