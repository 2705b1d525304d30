// ActorExtension: the per-actor gravity state.  UpdateGravity re-resolves
// the field an actor is in, moves its ring membership, resets the
// transition budget and recomputes (or forces to the identity) its basis;
// the Property::Set overloads store an actor's original and transformed
// values around a conversion into another actor's frame.  The world
// (GravityActors.World) holds what the source keeps in globals: the field
// chain, one ring per field, the player slot, behavingActor and the static
// shouldTransformOthers.

module GravityActors {
  import opened FixedMath
  import opened GravityFields
  import opened FieldIndex
  import opened ActorRing
  import Interp

  /** The player's actor ID. */
  const PLAYER_ID: int := 0xbf

  // ---------------------------------------------------------------------
  // The convert/restore protocol

  /**
   * ConverterBase(ext0, actor1, ext1): the basis of the actor being
   * converted, the basis of the pivot actor and the pivot's prevPos.
   */
  datatype Converter = Converter(basis0: Mat3, basis1: Mat3, pivot: Vec3)

  /** Converter on a vector: rotate about the pivot by the transposed pivot basis. */
  function ConvertPos(lib: Lib, c: Converter, p: Vec3): Vec3
  {
    lib.rotateAround(p, c.pivot, Transpose(c.basis1))
  }

  /** Converter on an angle: from basis0 to basis1. */
  function ConvertAng(lib: Lib, c: Converter, a: S16): S16
  {
    ConvertAngle(lib, a, c.basis0, c.basis1)
  }

  /** ReverseConverter on a vector: rotate about the pivot by the pivot basis. */
  function ReversePos(lib: Lib, c: Converter, p: Vec3): Vec3
  {
    lib.rotateAround(p, c.pivot, c.basis1)
  }

  /** ReverseConverter on an angle: from basis1 back to basis0. */
  function ReverseAng(lib: Lib, c: Converter, a: S16): S16
  {
    ConvertAngle(lib, a, c.basis1, c.basis0)
  }

  /** Both directions leave the pivot itself where it is. */
  lemma ConvertersFixPivot(lib: Lib, c: Converter)
    requires RotationLaws(lib)
    ensures ConvertPos(lib, c, c.pivot) == c.pivot && ReversePos(lib, c, c.pivot) == c.pivot
  {
  }

  /** Property<memberPath>: the stored original and transformed values. */
  datatype Prop<T> = Prop(original: T, transformed: T)

  /** Set(actor, Restorer): the original when the value is still the transformed one, else its reverse conversion reversed. */
  function Restored<T(==)>(p: Prop<T>, val: T, reversed: T): T
  {
    if val == p.transformed then p.original else reversed
  }

  /**
   * The fast path of the Restorer: restoring a value that is still the
   * converted one gives back exactly the value before conversion, whatever
   * the reverse conversion would have computed.
   */
  lemma RestoreUndoesConvert<T>(val: T, converted: T, reversed: T)
    ensures Restored(Prop(val, converted), converted, reversed) == val
  {
  }

  /** A value changed after conversion is reverse-converted. */
  lemma RestoreAfterChange<T>(p: Prop<T>, val: T, reversed: T)
    requires val != p.transformed
    ensures Restored(p, val, reversed) == reversed
  {
  }

  /** The four properties of an actor (pos, prevPos, ang.y, motionAng.y) and their stored pairs. */
  datatype Snap = Snap(pos: Vec3, prevPos: Vec3, angY: S16, motionAngY: S16,
                       posP: Prop<Vec3>, prevPosP: Prop<Vec3>, angP: Prop<S16>, motionAngP: Prop<S16>)

  /** SetAll(actor, Converter): every property stores its value and is converted, each on its own. */
  function ConvertAll(lib: Lib, c: Converter, s: Snap): (r: Snap)
    ensures r.posP == Prop(s.pos, r.pos) && r.prevPosP == Prop(s.prevPos, r.prevPos)
    ensures r.angP == Prop(s.angY, r.angY) && r.motionAngP == Prop(s.motionAngY, r.motionAngY)
  {
    var pos := ConvertPos(lib, c, s.pos);
    var prevPos := ConvertPos(lib, c, s.prevPos);
    var angY := ConvertAng(lib, c, s.angY);
    var motionAngY := ConvertAng(lib, c, s.motionAngY);
    Snap(pos, prevPos, angY, motionAngY, Prop(s.pos, pos), Prop(s.prevPos, prevPos), Prop(s.angY, angY), Prop(s.motionAngY, motionAngY))
  }

  /** SetAll(actor, Restorer): every value restored on its own; the stored pairs stay. */
  function RestoreAll(lib: Lib, c: Converter, s: Snap): Snap
  {
    s.(pos := Restored(s.posP, s.pos, ReversePos(lib, c, s.pos)),
       prevPos := Restored(s.prevPosP, s.prevPos, ReversePos(lib, c, s.prevPos)),
       angY := Restored(s.angP, s.angY, ReverseAng(lib, c, s.angY)),
       motionAngY := Restored(s.motionAngP, s.motionAngY, ReverseAng(lib, c, s.motionAngY)))
  }

  /**
   * A conversion followed by a restoration, with nothing changed in
   * between, gives back the four values bit for bit, even when the
   * restorer is built from different bases.
   */
  lemma RestoreAllUndoesConvertAll(lib: Lib, c: Converter, c': Converter, s: Snap)
    ensures var r := RestoreAll(lib, c', ConvertAll(lib, c, s));
            r.pos == s.pos && r.prevPos == s.prevPos && r.angY == s.angY && r.motionAngY == s.motionAngY
  {
  }

  /** SetAll(actor): every property stores its value as both original and transformed. */
  function PlainAll(s: Snap): (r: Snap)
    ensures r.posP == Prop(s.pos, s.pos) && r.prevPosP == Prop(s.prevPos, s.prevPos)
    ensures r.angP == Prop(s.angY, s.angY) && r.motionAngP == Prop(s.motionAngY, s.motionAngY)
  {
    s.(posP := Prop(s.pos, s.pos), prevPosP := Prop(s.prevPos, s.prevPos),
       angP := Prop(s.angY, s.angY), motionAngP := Prop(s.motionAngY, s.motionAngY))
  }

  /** SetAll(actor, Initializer): the values stay; only the originals are reverse-converted. */
  function InitAll(lib: Lib, c: Converter, s: Snap): (r: Snap)
    ensures r.pos == s.pos && r.prevPos == s.prevPos && r.angY == s.angY && r.motionAngY == s.motionAngY
    ensures r.posP.transformed == s.pos && r.prevPosP.transformed == s.prevPos
    ensures r.angP.transformed == s.angY && r.motionAngP.transformed == s.motionAngY
  {
    s.(posP := Prop(ReversePos(lib, c, s.pos), s.pos), prevPosP := Prop(ReversePos(lib, c, s.prevPos), s.prevPos),
       angP := Prop(ReverseAng(lib, c, s.angY), s.angY), motionAngP := Prop(ReverseAng(lib, c, s.motionAngY), s.motionAngY))
  }

  /** What a behaviour hook does to a target: SetProperties before the behaviour, RestoreProperties after it. */
  function PropStep(lib: Lib, before: bool, c: Converter, s: Snap): Snap
  {
    if before then ConvertAll(lib, c, s) else RestoreAll(lib, c, s)
  }

  // ---------------------------------------------------------------------
  // The orientation state machine of UpdateGravity

  /**
   * The state UpdateGravity reads and writes: the field, the basis, the
   * transition budget angleToNewField (a uint16_t), the velocity of
   * fieldSqaerp, the two converted angles and lastUpdatePoint.
   */
  datatype Frame = Frame(field: FieldRef, matrix: Mat3, angleToNewField: int, sqaerpVel: S16,
                         angY: S16, motionAngY: S16, lastUpdatePoint: Vec3)

  /** The bounds UpdateGravity keeps: budget within 180 degrees, controller velocity non-positive. */
  predicate BudgetOk(f: Frame)
  {
    0 <= f.angleToNewField <= DEG180 && f.sqaerpVel <= 0
  }

  /** In a trivial field with no transition left, the basis is the identity. */
  predicate TrivialIsIdentity(chain: seq<Field>, f: Frame)
    requires ValidRef(chain, f.field)
  {
    Deref(chain, f.field).trivial && f.angleToNewField == 0 ==> f.matrix == Identity()
  }

  /** The early return of UpdateGravity: moved less than 1.0 (squared) with no transition under way. */
  predicate SmallMove(lib: Lib, f: Frame, pos: Vec3)
  {
    var delta := Sub(pos, f.lastUpdatePoint);
    Dot12(lib, delta, delta) < ONE12 && f.angleToNewField == 0
  }

  /** fieldChanged: the field found has priority >= 0 and is another field. */
  predicate FieldChanges(lib: Lib, chain: seq<Field>, current: FieldRef, holdingPos: Vec3)
  {
    var found := FieldAt(lib, chain, holdingPos);
    FieldAtValid(lib, chain, holdingPos);
    Deref(chain, found).priority >= 0 && found != current
  }

  /**
   * CalculateUpVector: one Sqaerp step (1 degree per frame squared, capped
   * by the budget) from the current up axis, read as raw Q24 and
   * normalised twice, towards the field's up vector at pos.
   */
  function UpStep(lib: Lib, field: Field, m: Mat3, pos: Vec3, vel: S16, maxAngle: int): Interp.SqaerpOut
  {
    Interp.SqaerpStep(lib, vel, Normalized24(lib, Normalized24(lib, m.c1)), UpVectorQ24(lib, field.shape, pos), DEG1, false, maxAngle)
  }

  /**
   * The rebuilt basis: the new up axis c1; the forward axis from the view
   * matrix for the player, otherwise the old side axis crossed with c1;
   * then the side axis as c1 x c2, each normalised twice.
   */
  function NewBasis(lib: Lib, prev: Mat3, c1: Vec3, up: Vec3, isPlayer: bool, view: Mat3): (m: Mat3)
    ensures m.c1 == c1
  {
    var c2 := if isPlayer then lib.sphericalForward(FromQ12(view.c0), FromQ12(view.c2), up) else Cross12(lib, prev.c0, c1);
    var c2' := NormalizedTwice12(lib, c2);
    Mat3(NormalizedTwice12(lib, Cross12(lib, c1, c2')), c1, c2')
  }

  /** A new basis, with ang.y and motionAng.y converted from the old one. */
  function Turned(lib: Lib, f: Frame, m: Mat3): Frame
  {
    f.(matrix := m, angY := ConvertAngle(lib, f.angY, f.matrix, m), motionAngY := ConvertAngle(lib, f.motionAngY, f.matrix, m))
  }

  /**
   * The recompute branch of UpdateGravity: the budget becomes the Sqaerp
   * result stored in a uint16_t; in a trivial field with no budget left the
   * basis is the identity; a player in first person only gets the new up
   * axis and keeps its angles.
   */
  function Reorient(lib: Lib, field: Field, f: Frame, isPlayer: bool, firstPerson: bool, holdingPos: Vec3, view: Mat3): Frame
  {
    var s := UpStep(lib, field, f.matrix, holdingPos, f.sqaerpVel, f.angleToNewField);
    var angle := s.angle % 0x10000;
    var f1 := f.(sqaerpVel := s.vel, angleToNewField := angle);
    if field.trivial && angle == 0 then Turned(lib, f1, Identity())
    else
      var c1 := NormalizedTwice12(lib, s.v);
      if isPlayer && firstPerson then f1.(matrix := f.matrix.(c1 := c1))
      else Turned(lib, f1, NewBasis(lib, f.matrix, c1, s.v, isPlayer, view))
  }

  /** The field decision: adopt the found field on a change, with fieldSqaerp reset and the budget at 180 degrees. */
  function Decide(lib: Lib, chain: seq<Field>, f: Frame, holdingPos: Vec3): (r: Frame)
    requires ValidRef(chain, f.field)
    ensures ValidRef(chain, r.field)
  {
    FieldAtValid(lib, chain, holdingPos);
    if FieldChanges(lib, chain, f.field, holdingPos) then
      f.(field := FieldAt(lib, chain, holdingPos), sqaerpVel := 0, angleToNewField := DEG180)
    else f
  }

  /** The field decision, then the recompute when the field changed, is not homogeneous or a transition is under way. */
  function Resolve(lib: Lib, chain: seq<Field>, f: Frame, isPlayer: bool, firstPerson: bool, holdingPos: Vec3, view: Mat3): (r: Frame)
    requires ValidRef(chain, f.field)
    ensures ValidRef(chain, r.field)
  {
    var changed := FieldChanges(lib, chain, f.field, holdingPos);
    var f1 := Decide(lib, chain, f, holdingPos);
    if changed || !Deref(chain, f1.field).homogeneous || f1.angleToNewField > 0 then
      Reorient(lib, Deref(chain, f1.field), f1, isPlayer, firstPerson, holdingPos, view)
    else f1
  }

  /** Resolve, step by step: the frame after the field decision, then after the recompute if any. */
  lemma ResolveBySteps(lib: Lib, chain: seq<Field>, f: Frame, f1: Frame, r: Frame,
                       isPlayer: bool, firstPerson: bool, holdingPos: Vec3, view: Mat3)
    requires ValidRef(chain, f.field) && f1 == Decide(lib, chain, f, holdingPos)
    requires r == if f1.field != f.field || !Deref(chain, f1.field).homogeneous || f1.angleToNewField > 0
                  then Reorient(lib, Deref(chain, f1.field), f1, isPlayer, firstPerson, holdingPos, view) else f1
    ensures r == Resolve(lib, chain, f, isPlayer, firstPerson, holdingPos, view)
  {
    FieldAtValid(lib, chain, holdingPos);
  }

  /** UpdateGravity on the frame of an actor at pos whose holding actor is at holdingPos. */
  function GravityStep(lib: Lib, chain: seq<Field>, f: Frame, actorID: int, pos: Vec3, holdingPos: Vec3, firstPerson: bool, view: Mat3): (r: Frame)
    requires ValidRef(chain, f.field)
    ensures ValidRef(chain, r.field)
  {
    if SmallMove(lib, f, pos) then f else MoveStep(lib, chain, f, actorID, pos, holdingPos, firstPerson, view)
  }

  /** UpdateGravity past the early return: the field is resolved unless pinned to the default one, and pos is recorded. */
  function MoveStep(lib: Lib, chain: seq<Field>, f: Frame, actorID: int, pos: Vec3, holdingPos: Vec3, firstPerson: bool, view: Mat3): (r: Frame)
    requires ValidRef(chain, f.field)
    ensures ValidRef(chain, r.field)
  {
    if AlwaysInDefaultField(actorID) then f.(lastUpdatePoint := pos)
    else Resolve(lib, chain, f, actorID == PLAYER_ID, firstPerson, holdingPos, view).(lastUpdatePoint := pos)
  }

  /** A short move with no transition under way changes nothing; any other move records pos as lastUpdatePoint. */
  lemma GravityStepEarlyReturn(lib: Lib, chain: seq<Field>, f: Frame, actorID: int, pos: Vec3, holdingPos: Vec3, firstPerson: bool, view: Mat3)
    requires ValidRef(chain, f.field)
    ensures var r := GravityStep(lib, chain, f, actorID, pos, holdingPos, firstPerson, view);
            (SmallMove(lib, f, pos) ==> r == f) && (!SmallMove(lib, f, pos) ==> r.lastUpdatePoint == pos)
  {
  }

  /** An actor always in the default field never re-resolves: only lastUpdatePoint moves. */
  lemma GravityStepDefaultActor(lib: Lib, chain: seq<Field>, f: Frame, actorID: int, pos: Vec3, holdingPos: Vec3, firstPerson: bool, view: Mat3)
    requires ValidRef(chain, f.field) && AlwaysInDefaultField(actorID)
    ensures var r := GravityStep(lib, chain, f, actorID, pos, holdingPos, firstPerson, view);
            r.(lastUpdatePoint := f.lastUpdatePoint) == f
  {
  }

  /**
   * The field changes exactly when the move is not short, the actor is
   * not pinned to the default field and the field found at the holding
   * position has priority >= 0 and is another field; it then is that
   * field, with the budget restarted from 180 degrees.
   */
  lemma GravityStepFieldChange(lib: Lib, chain: seq<Field>, f: Frame, actorID: int, pos: Vec3, holdingPos: Vec3, firstPerson: bool, view: Mat3)
    requires ValidRef(chain, f.field)
    ensures var r := GravityStep(lib, chain, f, actorID, pos, holdingPos, firstPerson, view);
            (r.field != f.field <==> !SmallMove(lib, f, pos) && !AlwaysInDefaultField(actorID) && FieldChanges(lib, chain, f.field, holdingPos))
            && (r.field != f.field ==> r.field == FieldAt(lib, chain, holdingPos) && Deref(chain, r.field).priority >= 0)
  {
    if !SmallMove(lib, f, pos) && !AlwaysInDefaultField(actorID) {
      FieldAtDefault(lib, chain, holdingPos);
      var f1 := if FieldChanges(lib, chain, f.field, holdingPos) then f.(field := FieldAt(lib, chain, holdingPos), sqaerpVel := 0, angleToNewField := DEG180) else f;
      assert Resolve(lib, chain, f, actorID == PLAYER_ID, firstPerson, holdingPos, view).field == f1.field;
    }
  }

  /** Resolving to the default field (priority -1) never changes the field. */
  lemma GravityStepNeverAdoptsDefault(lib: Lib, chain: seq<Field>, f: Frame, actorID: int, pos: Vec3, holdingPos: Vec3, firstPerson: bool, view: Mat3)
    requires ValidRef(chain, f.field) && FieldAt(lib, chain, holdingPos) == DefaultRef
    ensures GravityStep(lib, chain, f, actorID, pos, holdingPos, firstPerson, view).field == f.field
  {
    GravityStepFieldChange(lib, chain, f, actorID, pos, holdingPos, firstPerson, view);
  }

  /**
   * Without a change of field, a homogeneous field and no budget left the
   * basis and the angles are kept; only lastUpdatePoint moves.
   */
  lemma GravityStepNoRecompute(lib: Lib, chain: seq<Field>, f: Frame, actorID: int, pos: Vec3, holdingPos: Vec3, firstPerson: bool, view: Mat3)
    requires ValidRef(chain, f.field)
    requires !FieldChanges(lib, chain, f.field, holdingPos) && Deref(chain, f.field).homogeneous && f.angleToNewField == 0
    ensures GravityStep(lib, chain, f, actorID, pos, holdingPos, firstPerson, view)
            == if SmallMove(lib, f, pos) then f else f.(lastUpdatePoint := pos)
  {
  }

  /** One Sqaerp step from a non-positive velocity with a budget of at most 180 degrees. */
  lemma UpStepBounds(lib: Lib, field: Field, m: Mat3, pos: Vec3, vel: S16, maxAngle: int)
    requires vel <= 0 && 0 <= maxAngle <= DEG180
    ensures var s := UpStep(lib, field, m, pos, vel, maxAngle);
            s.vel <= 0 && 0 <= s.angle <= maxAngle && s.angle % 0x10000 == s.angle
  {
    var start := Normalized24(lib, Normalized24(lib, m.c1));
    var target := UpVectorQ24(lib, field.shape, pos);
    var s := Interp.SqaerpStep(lib, vel, start, target, DEG1, false, maxAngle);
    Interp.SqaerpVelocityNonPositive(lib, vel, start, target, DEG1, false, maxAngle);
    Interp.SqaerpAngleInRange(lib, vel, start, target, DEG1, false, maxAngle);
    assert 0 <= s.angle <= maxAngle;
    SmallMod(s.angle);
  }

  lemma SmallMod(x: int)
    requires 0 <= x < 0x10000
    ensures x % 0x10000 == x
  {
  }

  /** The recompute branch keeps the bounds and never raises the budget. */
  lemma ReorientBudget(lib: Lib, field: Field, f: Frame, isPlayer: bool, firstPerson: bool, holdingPos: Vec3, view: Mat3)
    requires BudgetOk(f)
    ensures var r := Reorient(lib, field, f, isPlayer, firstPerson, holdingPos, view);
            BudgetOk(r) && r.angleToNewField <= f.angleToNewField && r.field == f.field
  {
    UpStepBounds(lib, field, f.matrix, holdingPos, f.sqaerpVel, f.angleToNewField);
  }

  /** The recompute branch leaves a trivial field with no budget left at the identity. */
  lemma ReorientTrivialIdentity(lib: Lib, field: Field, f: Frame, isPlayer: bool, firstPerson: bool, holdingPos: Vec3, view: Mat3)
    ensures var r := Reorient(lib, field, f, isPlayer, firstPerson, holdingPos, view);
            field.trivial && r.angleToNewField == 0 ==> r.matrix == Identity()
  {
  }

  /**
   * UpdateGravity keeps the budget within 180 degrees and the controller
   * velocity non-positive, and without a change of field the budget never
   * rises: it only restarts through the reset on a change.
   */
  lemma GravityStepBudget(lib: Lib, chain: seq<Field>, f: Frame, actorID: int, pos: Vec3, holdingPos: Vec3, firstPerson: bool, view: Mat3)
    requires ValidRef(chain, f.field) && BudgetOk(f)
    ensures var r := GravityStep(lib, chain, f, actorID, pos, holdingPos, firstPerson, view);
            BudgetOk(r) && (r.field == f.field ==> r.angleToNewField <= f.angleToNewField)
  {
    if !SmallMove(lib, f, pos) && !AlwaysInDefaultField(actorID) {
      FieldAtDefault(lib, chain, holdingPos);
      var changed := FieldChanges(lib, chain, f.field, holdingPos);
      var f1 := if changed then f.(field := FieldAt(lib, chain, holdingPos), sqaerpVel := 0, angleToNewField := DEG180) else f;
      ReorientBudget(lib, Deref(chain, f1.field), f1, actorID == PLAYER_ID, firstPerson, holdingPos, view);
    }
  }

  /** UpdateGravity keeps the bounds of FrameOk. */
  lemma GravityStepKeepsFrameOk(lib: Lib, chain: seq<Field>, f: Frame, actorID: int, pos: Vec3, holdingPos: Vec3, firstPerson: bool, view: Mat3)
    requires FrameOk(chain, f)
    ensures FrameOk(chain, GravityStep(lib, chain, f, actorID, pos, holdingPos, firstPerson, view))
  {
    GravityStepBudget(lib, chain, f, actorID, pos, holdingPos, firstPerson, view);
    GravityStepTrivialIdentity(lib, chain, f, actorID, pos, holdingPos, firstPerson, view);
  }

  /** In a trivial field with no budget left the basis is the identity, before and after UpdateGravity. */
  lemma GravityStepTrivialIdentity(lib: Lib, chain: seq<Field>, f: Frame, actorID: int, pos: Vec3, holdingPos: Vec3, firstPerson: bool, view: Mat3)
    requires ValidRef(chain, f.field) && TrivialIsIdentity(chain, f)
    ensures TrivialIsIdentity(chain, GravityStep(lib, chain, f, actorID, pos, holdingPos, firstPerson, view))
  {
    if !SmallMove(lib, f, pos) && !AlwaysInDefaultField(actorID) {
      FieldAtDefault(lib, chain, holdingPos);
      var changed := FieldChanges(lib, chain, f.field, holdingPos);
      var f1 := if changed then f.(field := FieldAt(lib, chain, holdingPos), sqaerpVel := 0, angleToNewField := DEG180) else f;
      if changed || !Deref(chain, f1.field).homogeneous || f1.angleToNewField > 0 {
        var field := Deref(chain, f1.field);
        var s := UpStep(lib, field, f1.matrix, holdingPos, f1.sqaerpVel, f1.angleToNewField);
        var angle := s.angle % 0x10000;
        if !(field.trivial && angle == 0) {
          assert Reorient(lib, field, f1, actorID == PLAYER_ID, firstPerson, holdingPos, view).angleToNewField == angle;
        }
      }
    }
  }

  /**
   * After a recompute that is not the first-person early return, ang.y
   * and motionAng.y are converted from the previous basis to the new one;
   * a player in first person keeps them.
   */
  lemma ReorientAngles(lib: Lib, field: Field, f: Frame, isPlayer: bool, firstPerson: bool, holdingPos: Vec3, view: Mat3)
    ensures var r := Reorient(lib, field, f, isPlayer, firstPerson, holdingPos, view);
            if isPlayer && firstPerson && !(field.trivial && r.angleToNewField == 0)
            then r.angY == f.angY && r.motionAngY == f.motionAngY && r.matrix.c0 == f.matrix.c0 && r.matrix.c2 == f.matrix.c2
            else r.angY == ConvertAngle(lib, f.angY, f.matrix, r.matrix) && r.motionAngY == ConvertAngle(lib, f.motionAngY, f.matrix, r.matrix)
  {
  }

  // ---------------------------------------------------------------------
  // Actors and their extensions

  /** The engine's actor, reduced to the fields the gravity code reads or writes. */
  class Actor {
    const actorID: int
    var pos: Vec3
    var prevPos: Vec3
    var angY: S16
    var motionAngY: S16
    var inPlayerHand: bool   // flags & IN_PLAYER_HAND
    var firstPerson: bool    // a player whose state is ST_FIRST_PERSON

    constructor(actorID: int, pos: Vec3, angY: S16)
      ensures this.actorID == actorID && this.pos == pos && prevPos == pos
      ensures this.angY == angY && motionAngY == angY && !inPlayerHand && !firstPerson
    {
      this.actorID := actorID;
      this.pos := pos;
      prevPos := pos;
      this.angY := angY;
      motionAngY := angY;
      inPlayerHand := false;
      firstPerson := false;
    }
  }

  /** The `properties` member of an extension: the stored pair of each converted property. */
  class Properties {
    var posP: Prop<Vec3>
    var prevPosP: Prop<Vec3>
    var angP: Prop<S16>
    var motionAngP: Prop<S16>

    /** Every pair holds the actor's current value twice. */
    constructor(actor: Actor)
      ensures posP == Prop(actor.pos, actor.pos) && prevPosP == Prop(actor.prevPos, actor.prevPos)
      ensures angP == Prop(actor.angY, actor.angY) && motionAngP == Prop(actor.motionAngY, actor.motionAngY)
    {
      posP := Prop(actor.pos, actor.pos);
      prevPosP := Prop(actor.prevPos, actor.prevPos);
      angP := Prop(actor.angY, actor.angY);
      motionAngP := Prop(actor.motionAngY, actor.motionAngY);
    }
  }

  class ActorExtension {
    const actor: Actor
    const fieldSqaerp: Interp.Sqaerp
    var currMatrix: Mat3
    var lastUpdatePoint: Vec3
    var angleToNewField: int         // uint16_t
    var savedPos: Vec3
    var cylClsnPushbackBasis: Mat3
    const props: Properties

    /** A slot for the extension of actor, not yet constructed onto any ring. */
    constructor(actor: Actor)
      ensures this.actor == actor && currMatrix == Identity()
      ensures angleToNewField == 0 && fieldSqaerp.angularVel == 0 && fresh(fieldSqaerp) && fresh(props)
    {
      this.actor := actor;
      fieldSqaerp := new Interp.Sqaerp();
      currMatrix := Identity();
      lastUpdatePoint := actor.pos;
      angleToNewField := 0;
      savedPos := actor.pos;
      cylClsnPushbackBasis := Identity();
      props := new Properties(actor);
    }

    /** The frame of this extension when its node is in field. */
    ghost function FrameIn(field: FieldRef): Frame
      reads this`currMatrix, this`angleToNewField, this`lastUpdatePoint, actor`angY, actor`motionAngY, fieldSqaerp`angularVel
    {
      Frame(field, currMatrix, angleToNewField, fieldSqaerp.angularVel, actor.angY, actor.motionAngY, lastUpdatePoint)
    }

    /** The four converted values of the actor and their stored pairs. */
    ghost function SnapOf(): Snap
      reads props, actor
    {
      Snap(actor.pos, actor.prevPos, actor.angY, actor.motionAngY, props.posP, props.prevPosP, props.angP, props.motionAngP)
    }

    /** CalculateUpVector(res, pos, sqaerp): one step of sqaerp from the current up axis towards the field's. */
    method CalculateUpVector(lib: Lib, f: Field, pos: Vec3, sqaerp: Interp.Sqaerp) returns (res: Vec3, angle: int)
      modifies sqaerp
      ensures Interp.SqaerpOut(sqaerp.angularVel, angle, res) == UpStep(lib, f, currMatrix, pos, old(sqaerp.angularVel), angleToNewField)
    {
      res, angle := sqaerp.Apply(lib, Normalized24(lib, Normalized24(lib, currMatrix.c1)), UpVectorQ24(lib, f.shape, pos), DEG1, false, angleToNewField);
    }

    /** PredictNextUpVector: the same step on a copy of fieldSqaerp, which itself is left as it is. */
    method PredictNextUpVector(lib: Lib, f: Field, nextPos: Vec3) returns (res: Vec3, angle: int)
      ensures var s := UpStep(lib, f, currMatrix, nextPos, fieldSqaerp.angularVel, angleToNewField);
              res == s.v && angle == s.angle
    {
      var copy := new Interp.Sqaerp.Copy(fieldSqaerp);
      res, angle := CalculateUpVector(lib, f, nextPos, copy);
    }

    /** The recompute branch of UpdateGravity, in field f (referred to as ref) with the holding actor at holdingPos. */
    method Recompute(lib: Lib, f: Field, ghost ref: FieldRef, holdingPos: Vec3, view: Mat3)
      modifies this`currMatrix, this`angleToNewField, fieldSqaerp, actor`angY, actor`motionAngY
      ensures FrameIn(ref) == Reorient(lib, f, old(FrameIn(ref)), actor.actorID == PLAYER_ID, old(actor.firstPerson), holdingPos, view)
    {
      var prevMatrix := currMatrix;
      var up, angle := CalculateUpVector(lib, f, holdingPos, fieldSqaerp);
      angleToNewField := angle % 0x10000;
      if f.trivial && angleToNewField == 0 {
        currMatrix := Identity();
      } else {
        currMatrix := currMatrix.(c1 := NormalizedTwice12(lib, up));
        if actor.actorID == PLAYER_ID {
          if actor.firstPerson {
            return;
          }
          currMatrix := currMatrix.(c2 := lib.sphericalForward(FromQ12(view.c0), FromQ12(view.c2), up));
        } else {
          currMatrix := currMatrix.(c2 := Cross12(lib, currMatrix.c0, currMatrix.c1));
        }
        currMatrix := currMatrix.(c2 := NormalizedTwice12(lib, currMatrix.c2));
        currMatrix := currMatrix.(c0 := NormalizedTwice12(lib, Cross12(lib, currMatrix.c1, currMatrix.c2)));
      }
      actor.angY := ConvertAngle(lib, actor.angY, prevMatrix, currMatrix);
      actor.motionAngY := ConvertAngle(lib, actor.motionAngY, prevMatrix, currMatrix);
    }

    /** SetProperties: SetAll with the converter into the pivot actor's frame. */
    method SetProperties(lib: Lib, c: Converter)
      modifies props, actor`pos, actor`prevPos, actor`angY, actor`motionAngY
      ensures SnapOf() == ConvertAll(lib, c, old(SnapOf()))
    {
      props.posP := Prop(actor.pos, ConvertPos(lib, c, actor.pos));
      actor.pos := props.posP.transformed;
      props.prevPosP := Prop(actor.prevPos, ConvertPos(lib, c, actor.prevPos));
      actor.prevPos := props.prevPosP.transformed;
      props.angP := Prop(actor.angY, ConvertAng(lib, c, actor.angY));
      actor.angY := props.angP.transformed;
      props.motionAngP := Prop(actor.motionAngY, ConvertAng(lib, c, actor.motionAngY));
      actor.motionAngY := props.motionAngP.transformed;
    }

    /** RestoreProperties: SetAll with the restorer of the same pair of frames. */
    method RestoreProperties(lib: Lib, c: Converter)
      modifies actor`pos, actor`prevPos, actor`angY, actor`motionAngY
      ensures SnapOf() == RestoreAll(lib, c, old(SnapOf()))
    {
      var p := props;
      actor.pos := if actor.pos == p.posP.transformed then p.posP.original else ReversePos(lib, c, actor.pos);
      actor.prevPos := if actor.prevPos == p.prevPosP.transformed then p.prevPosP.original else ReversePos(lib, c, actor.prevPos);
      actor.angY := if actor.angY == p.angP.transformed then p.angP.original else ReverseAng(lib, c, actor.angY);
      actor.motionAngY := if actor.motionAngY == p.motionAngP.transformed then p.motionAngP.original else ReverseAng(lib, c, actor.motionAngY);
    }

    /** SetProperties before the behaviour, RestoreProperties after it. */
    method Step(lib: Lib, before: bool, c: Converter)
      modifies props, actor`pos, actor`prevPos, actor`angY, actor`motionAngY
      ensures SnapOf() == PropStep(lib, before, c, old(SnapOf()))
    {
      if before {
        SetProperties(lib, c);
      } else {
        RestoreProperties(lib, c);
      }
    }

    /** The member initialisers of the ActorExtension constructor: basis m, identity pushback basis, controller at rest. */
    method InitBasis(m: Mat3)
      modifies this`currMatrix, this`cylClsnPushbackBasis, this`angleToNewField, fieldSqaerp
      ensures currMatrix == m && angleToNewField == 0 && fieldSqaerp.angularVel == 0 && cylClsnPushbackBasis == Identity()
    {
      currMatrix := m;
      cylClsnPushbackBasis := Identity();
      fieldSqaerp.Reset();
      angleToNewField := 0;
    }

    /**
     * The body of the ActorExtension constructor: the properties stored
     * plainly or, for a sub-actor, through the Initializer c; then
     * lastUpdatePoint and savedPos are the original position.
     */
    method InitProperties(lib: Lib, sub: bool, c: Converter)
      modifies props, this`savedPos, this`lastUpdatePoint
      ensures SnapOf() == if sub then InitAll(lib, c, old(SnapOf())) else PlainAll(old(SnapOf()))
      ensures lastUpdatePoint == props.posP.original && savedPos == props.posP.original
    {
      if sub {
        props.posP := Prop(ReversePos(lib, c, actor.pos), actor.pos);
        props.prevPosP := Prop(ReversePos(lib, c, actor.prevPos), actor.prevPos);
        props.angP := Prop(ReverseAng(lib, c, actor.angY), actor.angY);
        props.motionAngP := Prop(ReverseAng(lib, c, actor.motionAngY), actor.motionAngY);
      } else {
        props.posP := Prop(actor.pos, actor.pos);
        props.prevPosP := Prop(actor.prevPos, actor.prevPos);
        props.angP := Prop(actor.angY, actor.angY);
        props.motionAngP := Prop(actor.motionAngY, actor.motionAngY);
      }
      savedPos := props.posP.original;
      lastUpdatePoint := savedPos;
    }
  }

  /** The ring of a field: 0 for the default field, i + 1 for chain[i]. */
  function ListIndex(r: FieldRef): (i: nat)
    ensures r == DefaultRef <==> i == 0
  {
    if r.InChain? then r.index + 1 else 0
  }

  lemma ListIndexInjective(a: FieldRef, b: FieldRef)
    ensures ListIndex(a) == ListIndex(b) <==> a == b
  {
  }

  // ---------------------------------------------------------------------
  // The world invariant over snapshots of the slots and lists

  /** The bounds UpdateGravity keeps for a slot's frame. */
  ghost predicate FrameOk(chain: seq<Field>, f: Frame)
  {
    ValidRef(chain, f.field) && BudgetOk(f) && TrivialIsIdentity(chain, f)
  }

  /**
   * members[i] is the list of field i (0 the default field): it holds
   * exactly the live slots whose field is that one.
   */
  ghost predicate MembershipOf(chain: seq<Field>, alive: set<int>, fields: seq<FieldRef>, members: seq<seq<int>>)
  {
    && |members| == |chain| + 1
    && (forall k :: 0 <= k < |fields| ==> ValidRef(chain, fields[k]))
    && (forall a, k :: 0 <= a < |members| && k in members[a] ==>
          k in alive && 0 <= k < |fields| && ListIndex(fields[k]) == a)
    && (forall k :: k in alive ==>
          0 <= k < |fields| && ListIndex(fields[k]) < |members| && k in members[ListIndex(fields[k])])
  }

  /** members' is members with n taken out of list a and appended to list b. */
  ghost predicate MovedRings(members: seq<seq<int>>, members': seq<seq<int>>, n: int, a: nat, b: nat)
  {
    && |members'| == |members| && a < |members| && b < |members|
    && (forall k :: k in members'[a] <==> k in members[a] && k != n)
    && members'[b] == members[b] + [n]
    && (forall c :: 0 <= c < |members| && c != a && c != b ==> members'[c] == members[c])
  }

  /** A live slot is in the list of its own field and in no other. */
  lemma MembershipPlace(chain: seq<Field>, alive: set<int>, fields: seq<FieldRef>, members: seq<seq<int>>, n: int)
    requires MembershipOf(chain, alive, fields, members) && n in alive
    ensures ListIndex(fields[n]) < |members| && n in members[ListIndex(fields[n])]
    ensures forall c :: 0 <= c < |members| && c != ListIndex(fields[n]) ==> n !in members[c]
  {
    forall c | 0 <= c < |members| && n in members[c]
      ensures c == ListIndex(fields[n])
    {
      assert n in alive && 0 <= n < |fields| && ListIndex(fields[n]) == c;
    }
  }

  /** Moving live slot n from the list of its field to the list of field found keeps membership. */
  lemma MembershipMove(chain: seq<Field>, alive: set<int>, fields: seq<FieldRef>, members: seq<seq<int>>,
                       n: int, found: FieldRef, members': seq<seq<int>>)
    requires MembershipOf(chain, alive, fields, members) && n in alive && ValidRef(chain, found)
    requires ListIndex(fields[n]) != ListIndex(found)
    requires MovedRings(members, members', n, ListIndex(fields[n]), ListIndex(found))
    ensures MembershipOf(chain, alive, fields[n := found], members')
  {
    var fields' := fields[n := found];
    var a, b := ListIndex(fields[n]), ListIndex(found);
    forall k | 0 <= k < |fields'|
      ensures ValidRef(chain, fields'[k])
    {
      if k != n {
        assert ValidRef(chain, fields[k]);
      }
    }
    forall c, k | 0 <= c < |members'| && k in members'[c]
      ensures k in alive && 0 <= k < |fields'| && ListIndex(fields'[k]) == c
    {
      if k != n {
        if c == b {
          assert k in members[b] + [n];
        }
        assert k in members[c];
      }
    }
    forall k | k in alive
      ensures 0 <= k < |fields'| && ListIndex(fields'[k]) < |members'| && k in members'[ListIndex(fields'[k])]
    {
      if k == n {
        assert members'[b] == members[b] + [n];
      } else {
        var c := ListIndex(fields[k]);
        assert k in members[c];
        if c == b {
          assert k in members[b] + [n];
        }
      }
    }
    assert |members'| == |chain| + 1;
    assert forall k :: 0 <= k < |fields'| ==> ValidRef(chain, fields'[k]);
    assert forall c, k :: 0 <= c < |members'| && k in members'[c] ==> k in alive && 0 <= k < |fields'| && ListIndex(fields'[k]) == c;
    assert forall k :: k in alive ==> 0 <= k < |fields'| && ListIndex(fields'[k]) < |members'| && k in members'[ListIndex(fields'[k])];
    assert MembershipOf(chain, alive, fields', members');
  }

  /** A new slot n joining the list of field found, as its node's field, keeps membership. */
  lemma MembershipAdd(chain: seq<Field>, alive: set<int>, fields: seq<FieldRef>, members: seq<seq<int>>,
                      n: int, found: FieldRef, members': seq<seq<int>>)
    requires MembershipOf(chain, alive, fields, members) && n !in alive && 0 <= n < |fields| && ValidRef(chain, found)
    requires members' == members[ListIndex(found) := members[ListIndex(found)] + [n]]
    ensures MembershipOf(chain, alive + {n}, fields[n := found], members')
  {
    var fields' := fields[n := found];
    var b := ListIndex(found);
    assert |members'| == |chain| + 1;
    assert members'[b] == members[b] + [n];
    forall k | 0 <= k < |fields'|
      ensures ValidRef(chain, fields'[k])
    {
      if k != n {
        assert fields'[k] == fields[k];
      }
    }
    forall c, k | 0 <= c < |members'| && k in members'[c]
      ensures k in alive + {n} && 0 <= k < |fields'| && ListIndex(fields'[k]) == c
    {
      if k != n {
        if c == b {
          assert k in members[b] + [n];
        } else {
          assert members'[c] == members[c];
        }
        assert k in members[c];
        assert fields'[k] == fields[k];
      }
    }
    forall k | k in alive + {n}
      ensures 0 <= k < |fields'| && ListIndex(fields'[k]) < |members'| && k in members'[ListIndex(fields'[k])]
    {
      if k == n {
        assert fields'[n] == found;
      } else {
        var c := ListIndex(fields[k]);
        assert fields'[k] == fields[k];
        assert k in members[c];
        if c == b {
          assert k in members[b] + [n];
        } else {
          assert members'[c] == members[c];
        }
      }
    }
    assert MembershipOf(chain, alive + {n}, fields', members');
  }

  /** Live slot n leaving the list of its field and the live set keeps membership. */
  lemma MembershipDrop(chain: seq<Field>, alive: set<int>, fields: seq<FieldRef>, members: seq<seq<int>>,
                       n: int, members': seq<seq<int>>)
    requires MembershipOf(chain, alive, fields, members) && n in alive
    requires |members'| == |members| && ListIndex(fields[n]) < |members|
    requires forall k :: k in members'[ListIndex(fields[n])] <==> k in members[ListIndex(fields[n])] && k != n
    requires forall c :: 0 <= c < |members| && c != ListIndex(fields[n]) ==> members'[c] == members[c]
    ensures MembershipOf(chain, alive - {n}, fields, members')
  {
    var a := ListIndex(fields[n]);
    MembershipPlace(chain, alive, fields, members, n);
    forall c, k | 0 <= c < |members'| && k in members'[c]
      ensures k in alive - {n} && 0 <= k < |fields| && ListIndex(fields[k]) == c
    {
      if c == a {
        assert k in members[a] && k != n;
      } else {
        assert members'[c] == members[c];
      }
      assert k in members[c];
    }
    forall k | k in alive - {n}
      ensures 0 <= k < |fields| && ListIndex(fields[k]) < |members'| && k in members'[ListIndex(fields[k])]
    {
      var c := ListIndex(fields[k]);
      assert k in members[c];
      if c != a {
        assert members'[c] == members[c];
      }
    }
    assert MembershipOf(chain, alive - {n}, fields, members');
  }

  // ---------------------------------------------------------------------
  // The world: the field chain, the list of each field and the actor slots

  /** Extension e, its properties and its actor all belong to slot k, so distinct slots own distinct objects. */
  ghost predicate Owns(extSlot: map<ActorExtension, int>, propsSlot: map<Properties, int>, actorSlot: map<Actor, int>,
                       e: ActorExtension, k: int)
  {
    && e in extSlot && extSlot[e] == k
    && e.props in propsSlot && propsSlot[e.props] == k && e.actor in actorSlot && actorSlot[e.actor] == k
  }

  class World {
    const lib: Lib
    const chain: seq<Field>
    const lists: ActorLists
    const exts: seq<ActorExtension>
    const gravityField: array<FieldRef>  // the gravityField of each slot's node
    ghost var alive: set<int>
    var player: int                      // PLAYER_ARR[0] as a slot, or NULL
    var behaving: int                    // behavingActor as a slot, or NULL
    ghost const extSlot: map<ActorExtension, int>  // the slot of each extension
    ghost const propsSlot: map<Properties, int>  // the slot the properties of each extension belong to
    ghost const actorSlot: map<Actor, int>       // the slot each actor belongs to

    /** An empty world over the filled chain, with one empty list per field and no actor constructed. */
    constructor(lib: Lib, chain: seq<Field>, exts: seq<ActorExtension>,
                ghost extSlot: map<ActorExtension, int>, ghost propsSlot: map<Properties, int>, ghost actorSlot: map<Actor, int>)
      requires forall k :: 0 <= k < |exts| ==> Owns(extSlot, propsSlot, actorSlot, exts[k], k)
      ensures Valid() && alive == {} && player == NULL && behaving == NULL
      ensures this.lib == lib && this.chain == chain && this.exts == exts
      ensures forall i :: 0 <= i < |lists.members| ==> lists.members[i] == []
    {
      this.lib := lib;
      this.chain := chain;
      this.exts := exts;
      this.extSlot := extSlot;
      this.propsSlot := propsSlot;
      this.actorSlot := actorSlot;
      lists := new ActorLists(|exts|, |chain| + 1);
      gravityField := new FieldRef[|exts|](_ => DefaultRef);
      alive := {};
      player := NULL;
      behaving := NULL;
    }

    function Slot(n: int): ActorExtension
      requires 0 <= n < |exts|
    {
      exts[n]
    }

    /** One list per field over the nodes of all slots; distinct slots own distinct objects. */
    ghost predicate Layout()
    {
      && lists.lasts.Length == |chain| + 1 && lists.next.Length == |exts| && gravityField.Length == |exts|
      && (forall k :: 0 <= k < |exts| ==> Owns(extSlot, propsSlot, actorSlot, exts[k], k))
    }

    /** The properties and actors of every slot but n. */
    ghost function OthersOf(n: int): set<object>
    {
      (set p: Properties | p in propsSlot && propsSlot[p] != n :: p as object) + (set a: Actor | a in actorSlot && actorSlot[a] != n :: a as object)
    }

    /** The list of each field holds exactly the live actors whose node is in that field. */
    ghost predicate Membership()
      reads this, lists, gravityField
    {
      MembershipOf(chain, alive, gravityField[..], lists.members)
    }

    ghost predicate PlayerOk()
      reads this`player
    {
      player == NULL || (0 <= player < |exts| && exts[player].actor.actorID == PLAYER_ID)
    }

    ghost predicate SlotsOk()
      reads this
    {
      PlayerOk() && (behaving == NULL || 0 <= behaving < |exts|)
    }

    ghost predicate Valid()
      reads this, lists, lists.next, lists.prev, lists.lasts, gravityField
    {
      Layout() && lists.Valid() && Membership() && SlotsOk()
    }

    /** The frame of slot n: its node's field and its extension's orientation state. */
    ghost function FrameOf(n: int): Frame
      requires 0 <= n < |exts| && gravityField.Length == |exts|
      reads gravityField, Slot(n)`currMatrix, Slot(n)`angleToNewField, Slot(n)`lastUpdatePoint
      reads exts[n].actor`angY, exts[n].actor`motionAngY, exts[n].fieldSqaerp`angularVel
    {
      exts[n].FrameIn(gravityField[n])
    }

    /** IsInTrivialField: the node's field is trivial and no transition is under way. */
    predicate IsInTrivialField(n: int)
      requires 0 <= n < |exts| && n < gravityField.Length && ValidRef(chain, gravityField[n])
      reads gravityField, Slot(n)`angleToNewField
    {
      Deref(chain, gravityField[n]).trivial && exts[n].angleToNewField == 0
    }

    /** GetHoldingActor: the player while the actor is in the player's hand and a player exists. */
    function HoldingActor(n: int): (h: int)
      requires 0 <= n < |exts| && PlayerOk()
      reads this`player, exts[n].actor
      ensures 0 <= h < |exts|
    {
      if exts[n].actor.inPlayerHand && player != NULL then player else n
    }

    /** The list surgery of a field change: slot n leaves its list, joins found's, and its node is in found. */
    method Relink(n: int, found: FieldRef)
      requires Valid() && n in alive && ValidRef(chain, found) && found != gravityField[n]
      modifies gravityField, lists, lists.next, lists.prev, lists.lasts
      ensures Valid()
      ensures gravityField[..] == old(gravityField[..])[n := found]
      ensures MovedRings(old(lists.members), lists.members, n, ListIndex(old(gravityField[n])), ListIndex(found))
    {
      var a := ListIndex(gravityField[n]);
      var b := ListIndex(found);
      ListIndexInjective(gravityField[n], found);
      MembershipPlace(chain, alive, gravityField[..], lists.members, n);
      ghost var members0 := lists.members;
      lists.Remove(a, n);
      lists.Insert(b, n);
      MembershipMove(chain, alive, gravityField[..], members0, n, found, lists.members);
      gravityField[n] := found;
    }

    /** The field-change branch: Relink, then fieldSqaerp is reset and the budget is 180 degrees. */
    method ChangeField(n: int, found: FieldRef)
      requires Valid() && n in alive && ValidRef(chain, found) && found != gravityField[n]
      modifies gravityField, Slot(n)`angleToNewField, exts[n].fieldSqaerp, lists, lists.next, lists.prev, lists.lasts
      ensures Valid()
      ensures FrameOf(n) == old(FrameOf(n)).(field := found, sqaerpVel := 0, angleToNewField := DEG180)
      ensures forall k :: 0 <= k < gravityField.Length && k != n ==> gravityField[k] == old(gravityField[k])
      ensures MovedRings(old(lists.members), lists.members, n, ListIndex(old(gravityField[n])), ListIndex(found))
    {
      Relink(n, found);
      assert FrameOf(n) == old(FrameOf(n)).(field := found);
      exts[n].fieldSqaerp.Reset();
      exts[n].angleToNewField := DEG180;
    }

    /** The recompute branch on slot n, in the field of its node. */
    method RecomputeSlot(n: int, holdingPos: Vec3, view: Mat3)
      requires Valid() && 0 <= n < |exts|
      modifies Slot(n)`currMatrix, Slot(n)`angleToNewField, exts[n].fieldSqaerp, exts[n].actor`angY, exts[n].actor`motionAngY
      ensures Valid()
      ensures FrameOf(n) == Reorient(lib, Deref(chain, gravityField[n]), old(FrameOf(n)), exts[n].actor.actorID == PLAYER_ID,
                                     old(exts[n].actor.firstPerson), holdingPos, view)
    {
      exts[n].Recompute(lib, Deref(chain, gravityField[n]), gravityField[n], holdingPos, view);
    }

    /** The field decision on slot n at holdingPos; changed tells whether the node moved to another field. */
    method DecideField(n: int, holdingPos: Vec3) returns (changed: bool)
      requires Valid() && n in alive
      modifies gravityField, Slot(n)`angleToNewField, exts[n].fieldSqaerp, lists, lists.next, lists.prev, lists.lasts
      ensures Valid()
      ensures FrameOf(n) == Decide(lib, chain, old(FrameOf(n)), holdingPos)
      ensures changed <==> gravityField[n] != old(gravityField[n])
      ensures forall k :: 0 <= k < gravityField.Length && k != n ==> gravityField[k] == old(gravityField[k])
    {
      var found := GetFieldAt(lib, chain, holdingPos);
      changed := Deref(chain, found).priority >= 0 && found != gravityField[n];
      if changed {
        ChangeField(n, found);
      }
    }

    /** The part of UpdateGravity past the early returns: field decision and recompute, at holdingPos. */
    method ResolveField(n: int, holdingPos: Vec3, view: Mat3)
      requires Valid() && n in alive
      modifies gravityField, Slot(n)`currMatrix, Slot(n)`angleToNewField, exts[n].fieldSqaerp
      modifies exts[n].actor`angY, exts[n].actor`motionAngY, lists, lists.next, lists.prev, lists.lasts
      ensures Valid()
      ensures FrameOf(n) == Resolve(lib, chain, old(FrameOf(n)), exts[n].actor.actorID == PLAYER_ID,
                                    old(exts[n].actor.firstPerson), holdingPos, view)
      ensures forall k :: 0 <= k < gravityField.Length && k != n ==> gravityField[k] == old(gravityField[k])
    {
      ghost var f0 := FrameOf(n);
      var changed := DecideField(n, holdingPos);
      ghost var f1 := FrameOf(n);
      FinishField(n, changed, holdingPos, view);
      ResolveBySteps(lib, chain, f0, f1, FrameOf(n), exts[n].actor.actorID == PLAYER_ID, old(exts[n].actor.firstPerson), holdingPos, view);
    }

    /** The recompute of ResolveField, taken after a field change, in an inhomogeneous field or during a transition. */
    method FinishField(n: int, changed: bool, holdingPos: Vec3, view: Mat3)
      requires Valid() && 0 <= n < |exts|
      modifies Slot(n)`currMatrix, Slot(n)`angleToNewField, exts[n].fieldSqaerp, exts[n].actor`angY, exts[n].actor`motionAngY
      ensures Valid()
      ensures FrameOf(n) == if changed || !Deref(chain, old(FrameOf(n)).field).homogeneous || old(FrameOf(n)).angleToNewField > 0
                            then Reorient(lib, Deref(chain, old(FrameOf(n)).field), old(FrameOf(n)), exts[n].actor.actorID == PLAYER_ID,
                                          old(exts[n].actor.firstPerson), holdingPos, view)
                            else old(FrameOf(n))
    {
      if changed || !Deref(chain, gravityField[n]).homogeneous || exts[n].angleToNewField > 0 {
        RecomputeSlot(n, holdingPos, view);
      }
    }

    /** UpdateGravity past the early return: the field decision unless pinned to the default field, then lastUpdatePoint. */
    method UpdateAfterMove(n: int, view: Mat3)
      requires Valid() && n in alive
      modifies gravityField, Slot(n)`currMatrix, Slot(n)`angleToNewField, Slot(n)`lastUpdatePoint, exts[n].fieldSqaerp
      modifies exts[n].actor`angY, exts[n].actor`motionAngY, lists, lists.next, lists.prev, lists.lasts
      ensures Valid()
      ensures FrameOf(n) == MoveStep(lib, chain, old(FrameOf(n)), exts[n].actor.actorID, old(exts[n].actor.pos),
                                        old(exts[HoldingActor(n)].actor.pos), old(exts[n].actor.firstPerson), view)
      ensures forall k :: 0 <= k < gravityField.Length && k != n ==> gravityField[k] == old(gravityField[k])
    {
      MoveField(n, view);
      RecordUpdatePoint(n);
    }

    /** The field decision of UpdateGravity, skipped for an actor pinned to the default field. */
    method MoveField(n: int, view: Mat3)
      requires Valid() && n in alive
      modifies gravityField, Slot(n)`currMatrix, Slot(n)`angleToNewField, exts[n].fieldSqaerp
      modifies exts[n].actor`angY, exts[n].actor`motionAngY, lists, lists.next, lists.prev, lists.lasts
      ensures Valid()
      ensures FrameOf(n) == if AlwaysInDefaultField(exts[n].actor.actorID) then old(FrameOf(n))
                            else Resolve(lib, chain, old(FrameOf(n)), exts[n].actor.actorID == PLAYER_ID,
                                         old(exts[n].actor.firstPerson), old(exts[HoldingActor(n)].actor.pos), view)
      ensures forall k :: 0 <= k < gravityField.Length && k != n ==> gravityField[k] == old(gravityField[k])
    {
      var actor := exts[n].actor;
      if !AlwaysInDefaultField(actor.actorID) {
        var holding := if actor.inPlayerHand && player != NULL then player else n;
        assert holding == HoldingActor(n);
        ResolveField(n, exts[holding].actor.pos, view);
      }
    }

    /** The last statement of UpdateGravity: lastUpdatePoint becomes the actor's position. */
    method RecordUpdatePoint(n: int)
      requires Valid() && 0 <= n < |exts|
      modifies Slot(n)`lastUpdatePoint
      ensures Valid() && FrameOf(n) == old(FrameOf(n)).(lastUpdatePoint := old(exts[n].actor.pos))
    {
      exts[n].lastUpdatePoint := exts[n].actor.pos;
    }

    /**
     * The effect of UpdateGravity on slot n: its frame follows GravityStep,
     * with the field resolved at the holding actor's position and the view
     * matrix for the player's forward axis, and keeps its bounds; no other
     * slot's node changes field.
     */
    twostate predicate GravityUpdated(n: int, view: Mat3)
      requires old(Valid()) && n in old(alive)
      reads gravityField, Slot(n)`currMatrix, Slot(n)`angleToNewField, Slot(n)`lastUpdatePoint
      reads exts[n].actor`angY, exts[n].actor`motionAngY, exts[n].fieldSqaerp`angularVel
    {
      && FrameOf(n) == GravityStep(lib, chain, old(FrameOf(n)), exts[n].actor.actorID, old(exts[n].actor.pos),
                                   old(exts[HoldingActor(n)].actor.pos), old(exts[n].actor.firstPerson), view)
      && (FrameOk(chain, old(FrameOf(n))) ==> FrameOk(chain, FrameOf(n)))
      && (forall k :: 0 <= k < gravityField.Length && k != n ==> gravityField[k] == old(gravityField[k]))
    }

    /**
     * UpdateGravity: the frame of slot n follows GravityStep, with the
     * field resolved at the holding actor's position and the view matrix
     * for the player's forward axis; the lists follow the field, and the
     * frame keeps its bounds.
     */
    method UpdateGravity(n: int, view: Mat3)
      requires Valid() && n in alive
      modifies gravityField, Slot(n)`currMatrix, Slot(n)`angleToNewField, Slot(n)`lastUpdatePoint, exts[n].fieldSqaerp
      modifies exts[n].actor`angY, exts[n].actor`motionAngY, lists, lists.next, lists.prev, lists.lasts
      ensures Valid() && GravityUpdated(n, view)
    {
      var ext := exts[n];
      var actor := ext.actor;
      ghost var f0 := FrameOf(n);
      ghost var holdingPos := exts[HoldingActor(n)].actor.pos;
      if FrameOk(chain, f0) {
        GravityStepKeepsFrameOk(lib, chain, f0, actor.actorID, actor.pos, holdingPos, actor.firstPerson, view);
      }
      var delta := Sub(actor.pos, ext.lastUpdatePoint);
      if Dot12(lib, delta, delta) < ONE12 && ext.angleToNewField == 0 {
        assert SmallMove(lib, f0, actor.pos);
        return;
      }
      assert !SmallMove(lib, f0, actor.pos);
      UpdateAfterMove(n, view);
    }

    // -------------------------------------------------------------------
    // Construction and destruction of a slot's extension

    /**
     * The ActorExtension constructor on slot n: the node joins the list of
     * GetFieldFor at the actor's position (the default field for an actor
     * bound to it), the basis is that field's first matrix (viewPos is the
     * entrance view's position the player's basis starts from), and the
     * properties are stored plainly or, for a sub-actor spawned during
     * another actor's behaviour, with the originals reverse-converted out of
     * the behaving actor's frame; lastUpdatePoint and savedPos are the
     * original position.
     */
    method Spawn(n: int, viewPos: Vec3)
      requires Valid() && 0 <= n < |exts| && n !in alive && behaving != n
      modifies this`alive, gravityField, lists, lists.next, lists.prev, lists.lasts, exts[n], exts[n].props, exts[n].fieldSqaerp
      ensures Valid() && alive == old(alive) + {n}
      ensures var f := FieldFor(lib, chain, AlwaysInDefaultField(exts[n].actor.actorID), old(exts[n].actor.pos));
              && gravityField[..] == old(gravityField[..])[n := f]
              && lists.members == old(lists.members)[ListIndex(f) := old(lists.members[ListIndex(f)]) + [n]]
              && exts[n].currMatrix == FirstFieldMatrix(lib, Deref(chain, f), old(exts[n].actor.pos), exts[n].actor.actorID, viewPos)
      ensures exts[n].angleToNewField == 0 && exts[n].fieldSqaerp.angularVel == 0 && exts[n].cylClsnPushbackBasis == Identity()
      ensures exts[n].SnapOf() ==
                if behaving != NULL && CanSpawnAsSubActor(exts[n].actor.actorID)
                then InitAll(lib, Converter(exts[n].currMatrix, old(exts[behaving].currMatrix), old(exts[behaving].actor.prevPos)),
                             old(exts[n].SnapOf()))
                else PlainAll(old(exts[n].SnapOf()))
      ensures exts[n].lastUpdatePoint == exts[n].props.posP.original && exts[n].savedPos == exts[n].props.posP.original
    {
      var actor := exts[n].actor;
      ghost var s0 := exts[n].SnapOf();
      var sub := behaving != NULL && CanSpawnAsSubActor(actor.actorID);
      var basis1, pivot := Identity(), Vec3(0, 0, 0);
      if sub {
        basis1, pivot := exts[behaving].currMatrix, exts[behaving].actor.prevPos;
      }
      var pos := actor.pos;
      var f := Enroll(n);
      var m := FirstFieldMatrix(lib, Deref(chain, f), pos, actor.actorID, viewPos);
      var c := if sub then Converter(m, basis1, pivot) else Converter(Identity(), Identity(), Vec3(0, 0, 0));
      assert exts[n].SnapOf() == s0;
      InitSlot(n, m, sub, c);
    }

    /** The extension part of the constructor on slot n: InitBasis with m, then InitProperties. */
    method InitSlot(n: int, m: Mat3, sub: bool, c: Converter)
      requires Valid() && 0 <= n < |exts|
      modifies exts[n], exts[n].props, exts[n].fieldSqaerp
      ensures Valid()
      ensures exts[n].currMatrix == m && exts[n].angleToNewField == 0 && exts[n].fieldSqaerp.angularVel == 0
      ensures exts[n].cylClsnPushbackBasis == Identity()
      ensures exts[n].SnapOf() == if sub then InitAll(lib, c, old(exts[n].SnapOf())) else PlainAll(old(exts[n].SnapOf()))
      ensures exts[n].lastUpdatePoint == exts[n].props.posP.original && exts[n].savedPos == exts[n].props.posP.original
      ensures unchanged(this, lists, lists.next, lists.prev, lists.lasts, gravityField)
    {
      exts[n].InitBasis(m);
      exts[n].InitProperties(lib, sub, c);
    }

    /** The ActorList::Node constructor on slot n: its field is GetFieldFor, and it is appended to that field's list. */
    method Enroll(n: int) returns (f: FieldRef)
      requires Valid() && 0 <= n < |exts| && n !in alive
      modifies this`alive, gravityField, lists, lists.next, lists.prev, lists.lasts
      ensures Valid() && alive == old(alive) + {n}
      ensures f == FieldFor(lib, chain, AlwaysInDefaultField(exts[n].actor.actorID), old(exts[n].actor.pos))
      ensures gravityField[..] == old(gravityField[..])[n := f]
      ensures lists.members == old(lists.members)[ListIndex(f) := old(lists.members[ListIndex(f)]) + [n]]
    {
      var actor := exts[n].actor;
      f := GetFieldFor(lib, chain, AlwaysInDefaultField(actor.actorID), actor.pos);
      forall c | 0 <= c < |lists.members|
        ensures n !in lists.members[c]
      {
      }
      ghost var members0 := lists.members;
      lists.Insert(ListIndex(f), n);
      MembershipAdd(chain, alive, gravityField[..], members0, n, f, lists.members);
      gravityField[n] := f;
      alive := alive + {n};
    }

    /** The Node destructor on slot n: the node leaves the list of its field. */
    method Destroy(n: int)
      requires Valid() && n in alive
      modifies this`alive, lists, lists.next, lists.prev, lists.lasts
      ensures Valid() && alive == old(alive) - {n}
      ensures |lists.members| == |old(lists.members)|
      ensures forall k :: k in lists.members[ListIndex(gravityField[n])] <==> k in old(lists.members[ListIndex(gravityField[n])]) && k != n
      ensures forall c :: 0 <= c < |lists.members| && c != ListIndex(gravityField[n]) ==> lists.members[c] == old(lists.members[c])
    {
      var a := ListIndex(gravityField[n]);
      MembershipPlace(chain, alive, gravityField[..], lists.members, n);
      ghost var members0 := lists.members;
      lists.Remove(a, n);
      MembershipDrop(chain, alive, gravityField[..], members0, n, lists.members);
      alive := alive - {n};
    }

    // -------------------------------------------------------------------
    // The behaviour hooks

    /** RedirectDelta acts on slot n: n is the behaving slot, or none is, and n is transformed. */
    predicate Redirects(n: int, behavingNow: int)
      requires 0 <= n < |exts|
    {
      (behavingNow == NULL || behavingNow == n) && ShouldBeTransformed(exts[n].actor.actorID)
    }

    /**
     * RedirectDelta: the behaving actor's move since savedPos is rotated
     * about savedPos by its basis, and savedPos follows, so that right
     * after it the actor stands at savedPos.
     */
    method RedirectDelta(n: int)
      requires Layout() && 0 <= n < |exts|
      modifies Slot(n)`savedPos, exts[n].actor`pos
      ensures Kept(n)
      ensures Redirects(n, behaving) ==>
                exts[n].actor.pos == lib.rotateAround(old(exts[n].actor.pos), old(exts[n].savedPos), exts[n].currMatrix)
                && exts[n].savedPos == exts[n].actor.pos
      ensures !Redirects(n, behaving) ==> exts[n].actor.pos == old(exts[n].actor.pos) && exts[n].savedPos == old(exts[n].savedPos)
      // a second redirect right after an effective one rotates a zero offset
      ensures Redirects(n, behaving) && RotationLaws(lib) ==>
                lib.rotateAround(exts[n].actor.pos, exts[n].savedPos, exts[n].currMatrix) == exts[n].actor.pos
    {
      if behaving != NULL && behaving != n {
        return;
      }
      if !ShouldBeTransformed(exts[n].actor.actorID) {
        return;
      }
      var ext := exts[n];
      ext.actor.pos := lib.rotateAround(ext.actor.pos, ext.savedPos, ext.currMatrix);
      ext.savedPos := ext.actor.pos;
    }

    /**
     * The actors converted around behaving slot n: the player when n is
     * not a player, else the other transformed actors of n's list.
     */
    ghost predicate IsTarget(n: int, k: int)
      requires 0 <= n < |exts| && gravityField.Length == |exts|
      reads this`player, lists, gravityField
    {
      && 0 <= k < |exts| && k != n
      && if exts[n].actor.actorID != PLAYER_ID then k == player
         else ListIndex(gravityField[n]) < |lists.members| && k in lists.members[ListIndex(gravityField[n])]
              && ShouldBeTransformed(exts[k].actor.actorID)
    }

    /** Converter(target, pivot actor, behaving extension) for target k and behaving slot n. */
    ghost function ConverterFor(n: int, k: int): Converter
      requires 0 <= n < |exts| && 0 <= k < |exts|
      reads exts[k], exts[n], exts[n].actor
    {
      Converter(exts[k].currMatrix, exts[n].currMatrix, exts[n].actor.prevPos)
    }

    /**
     * The conversion around behaving slot n: each target gets PropStep
     * with the converter into n's frame, every other slot keeps its values.
     */
    twostate predicate Converted(n: int, before: bool)
      requires Layout() && 0 <= n < |exts|
      reads propsSlot.Keys, actorSlot.Keys
    {
      forall k :: 0 <= k < |exts| && k != n ==>
        exts[k].SnapOf() == if old(IsTarget(n, k)) then PropStep(lib, before, old(ConverterFor(n, k)), old(exts[k].SnapOf()))
                            else old(exts[k].SnapOf())
    }

    /** Lines 79-109 of ProcessBehaviorProperties: the player, or the rest of the player's list. */
    method ConvertOthers(n: int, before: bool)
      requires Valid() && n in alive
      modifies OthersOf(n)
      ensures Converted(n, before)
    {
      if exts[n].actor.actorID != PLAYER_ID {
        ConvertPlayer(n, before);
      } else {
        ConvertRing(n, before);
      }
    }

    /** A behaving actor other than the player: the player, if there is one, is converted into its frame. */
    method ConvertPlayer(n: int, before: bool)
      requires Layout() && PlayerOk() && 0 <= n < |exts| && exts[n].actor.actorID != PLAYER_ID
      modifies OthersOf(n)
      ensures Converted(n, before)
    {
      if player == NULL {
        return;
      }
      ConvertOne(n, player, before, ConverterFor(n, player));
    }

    /** The behaving player: every other transformed actor of its list is converted into its frame. */
    method ConvertRing(n: int, before: bool)
      requires Valid() && n in alive && exts[n].actor.actorID == PLAYER_ID
      modifies OthersOf(n)
      ensures Converted(n, before)
    {
      var i := ListIndex(gravityField[n]);
      MembershipPlace(chain, alive, gravityField[..], lists.members, n);
      var others := lists.OtherNodes(i, n);
      forall j | 0 <= j < |others|
        ensures 0 <= others[j] < |exts| && others[j] != n
      {
        assert others[j] in lists.members[i];
      }
      var done := ConvertEach(n, before, others);
    }

    /** Every transformed slot of done has had PropStep into the frame of slot n; every other slot is as it was. */
    twostate predicate Stepped(n: int, before: bool, done: set<int>)
      requires Layout() && 0 <= n < |exts|
      reads propsSlot.Keys, actorSlot.Keys
    {
      forall k :: 0 <= k < |exts| && k != n ==>
        exts[k].SnapOf() == if k in done && ShouldBeTransformed(exts[k].actor.actorID)
                            then PropStep(lib, before, old(ConverterFor(n, k)), old(exts[k].SnapOf()))
                            else old(exts[k].SnapOf())
    }

    /** The loops over OtherNodes: every transformed actor of others, each once. */
    method ConvertEach(n: int, before: bool, others: seq<int>) returns (ghost done: set<int>)
      requires Layout() && 0 <= n < |exts| && Distinct(others)
      requires forall j :: 0 <= j < |others| ==> 0 <= others[j] < |exts| && others[j] != n
      modifies OthersOf(n)
      ensures (forall x :: x in done <==> x in others) && Stepped(n, before, done)
    {
      done := {};
      var t := 0;
      while t < |others|
        invariant 0 <= t <= |others|
        invariant forall j :: 0 <= j < t ==> others[j] in done
        invariant forall j :: t <= j < |others| ==> others[j] !in done
        invariant forall x :: x in done ==> x in others
        invariant Stepped(n, before, done)
      {
        var k := others[t];
        ConvertOne(n, k, before, old(ConverterFor(n, k)));
        done := done + {k};
        t := t + 1;
      }
    }

    /** SetProperties or RestoreProperties on slot k with the converter into the frame of slot n. */
    method ConvertOne(n: int, k: int, before: bool, ghost c: Converter)
      requires Layout() && 0 <= n < |exts| && 0 <= k < |exts| && k != n && c == ConverterFor(n, k)
      modifies exts[k].props, exts[k].actor`pos, exts[k].actor`prevPos, exts[k].actor`angY, exts[k].actor`motionAngY
      ensures exts[k].SnapOf() == if ShouldBeTransformed(exts[k].actor.actorID) then PropStep(lib, before, c, old(exts[k].SnapOf()))
                                  else old(exts[k].SnapOf())
      ensures forall j :: 0 <= j < |exts| && j != k ==> exts[j].SnapOf() == old(exts[j].SnapOf())
    {
      if ShouldBeTransformed(exts[k].actor.actorID) {
        exts[k].Step(lib, before, Converter(exts[k].currMatrix, exts[n].currMatrix, exts[n].actor.prevPos));
      }
    }

    // -------------------------------------------------------------------
    // BeforeBehavior, AfterBehavior and ProcessBehaviorProperties

    /** No slot but n has had its actor or its properties changed. */
    twostate predicate Kept(n: int)
      requires Layout() && 0 <= n < |exts|
      reads propsSlot.Keys, actorSlot.Keys - {exts[n].actor}
    {
      forall k :: 0 <= k < |exts| && k != n ==> exts[k].SnapOf() == old(exts[k].SnapOf())
    }

    /**
     * The other slots after ProcessBehaviorProperties on slot n: when
     * transform is set, each target has had PropStep with the converter into
     * n's frame as it now is; every other slot keeps its values.
     */
    twostate predicate Transformed(n: int, before: bool, transform: bool)
      requires Layout() && 0 <= n < |exts|
      reads this`player, lists, gravityField, extSlot.Keys, propsSlot.Keys, actorSlot.Keys
    {
      forall k :: 0 <= k < |exts| && k != n ==>
        exts[k].SnapOf() == if transform && IsTarget(n, k) then PropStep(lib, before, ConverterFor(n, k), old(exts[k].SnapOf()))
                            else old(exts[k].SnapOf())
    }

    /** The shouldTransformOthers rule: a transformed actor outside any trivial field and not in the player's hand. */
    predicate TransformsOthers(n: int)
      requires 0 <= n < |exts| && n < gravityField.Length && ValidRef(chain, gravityField[n])
      reads gravityField, Slot(n)`angleToNewField, exts[n].actor`inPlayerHand
    {
      ShouldBeTransformed(exts[n].actor.actorID) && !IsInTrivialField(n) && !exts[n].actor.inPlayerHand
    }

    /** Lines 62-73 of ProcessBehaviorProperties before the behaviour: UpdateGravity, then the new shouldTransformOthers. */
    method Prepare(n: int, view: Mat3) returns (transform: bool)
      requires Valid() && n in alive
      modifies gravityField, Slot(n)`currMatrix, Slot(n)`angleToNewField, Slot(n)`lastUpdatePoint
      modifies exts[n].fieldSqaerp, exts[n].actor`angY, exts[n].actor`motionAngY, lists, lists.next, lists.prev, lists.lasts
      ensures Valid() && GravityUpdated(n, view) && transform == TransformsOthers(n) && Kept(n)
      ensures exts[n].savedPos == old(exts[n].savedPos)
    {
      assert Kept(n);
      UpdateGravity(n, view);
      assert exts[n].savedPos == old(exts[n].savedPos);
      transform := TransformsOthers(n);
    }

    /** Lines 75-109 of ProcessBehaviorProperties: with shouldTransformOthers set, RedirectDelta, then the conversion of the others. */
    method TransformOthers(n: int, before: bool, transform: bool)
      requires Valid() && n in alive
      modifies Slot(n)`savedPos, exts[n].actor`pos, OthersOf(n)
      ensures Valid()
      ensures transform && Redirects(n, behaving) ==>
                exts[n].actor.pos == lib.rotateAround(old(exts[n].actor.pos), old(exts[n].savedPos), exts[n].currMatrix)
                && exts[n].savedPos == exts[n].actor.pos
      ensures !(transform && Redirects(n, behaving)) ==>
                exts[n].actor.pos == old(exts[n].actor.pos) && exts[n].savedPos == old(exts[n].savedPos)
      ensures Transformed(n, before, transform)
      ensures unchanged(gravityField, exts[n].fieldSqaerp)
      ensures unchanged(Slot(n)`currMatrix, Slot(n)`angleToNewField, Slot(n)`lastUpdatePoint)
      ensures unchanged(exts[n].actor`angY, exts[n].actor`motionAngY, exts[n].actor`inPlayerHand)
    {
      if !transform {
        assert Kept(n);
        return;
      }
      RedirectAndConvert(n, before);
    }

    /** The body of the shouldTransformOthers branch: RedirectDelta, then the conversion of the others around n. */
    method RedirectAndConvert(n: int, before: bool)
      requires Valid() && n in alive
      modifies Slot(n)`savedPos, exts[n].actor`pos, OthersOf(n)
      ensures Valid()
      ensures Redirects(n, behaving) ==>
                exts[n].actor.pos == lib.rotateAround(old(exts[n].actor.pos), old(exts[n].savedPos), exts[n].currMatrix)
                && exts[n].savedPos == exts[n].actor.pos
      ensures !Redirects(n, behaving) ==> exts[n].actor.pos == old(exts[n].actor.pos) && exts[n].savedPos == old(exts[n].savedPos)
      ensures Transformed(n, before, true)
      ensures unchanged(gravityField, exts[n].fieldSqaerp)
      ensures unchanged(Slot(n)`currMatrix, Slot(n)`angleToNewField, Slot(n)`lastUpdatePoint)
      ensures unchanged(exts[n].actor`angY, exts[n].actor`motionAngY, exts[n].actor`inPlayerHand)
    {
      RedirectDelta(n);
      label redirected:
      OthersOfSpares(n);
      ConvertOthers(n, before);
      ValidStays@redirected();
      TargetsStay@redirected(n);
    }

    /** The conversion around n touches neither the World, the lists, the fields, the extensions nor n's actor. */
    lemma OthersOfSpares(n: int)
      requires Layout() && 0 <= n < |exts|
      ensures this !in OthersOf(n) && lists !in OthersOf(n) && gravityField !in OthersOf(n)
      ensures lists.next !in OthersOf(n) && lists.prev !in OthersOf(n) && lists.lasts !in OthersOf(n)
      ensures exts[n].actor !in OthersOf(n) && exts[n].fieldSqaerp !in OthersOf(n) && exts[n] !in OthersOf(n)
    {
      assert Owns(extSlot, propsSlot, actorSlot, exts[n], n);
    }

    /** Valid depends on the World, the lists and the fields only. */
    twostate lemma ValidStays()
      requires old(Valid()) && unchanged(this, lists, lists.next, lists.prev, lists.lasts, gravityField)
      ensures Valid()
    {
    }

    /** With the World, the lists, the fields and the extensions as they were, so are the targets of n and their converters. */
    twostate lemma TargetsStay(n: int)
      requires Layout() && 0 <= n < |exts|
      requires unchanged(this, lists, gravityField, exts[n].actor) && unchanged(extSlot.Keys)
      ensures forall k :: 0 <= k < |exts| ==> IsTarget(n, k) == old(IsTarget(n, k)) && ConverterFor(n, k) == old(ConverterFor(n, k))
    {
      forall k | 0 <= k < |exts|
        ensures IsTarget(n, k) == old(IsTarget(n, k)) && ConverterFor(n, k) == old(ConverterFor(n, k))
      {
        assert Owns(extSlot, propsSlot, actorSlot, exts[k], k);
      }
    }

    /**
     * ProcessBehaviorProperties(actor, true) on slot n: the frame follows
     * UpdateGravity and shouldTransformOthers is recomputed; when it is set
     * the behaving actor's move is redirected and the others are converted
     * into its frame.
     */
    method ProcessBefore(n: int, view: Mat3) returns (transform: bool)
      requires Valid() && n in alive
      modifies gravityField, Slot(n)`currMatrix, Slot(n)`angleToNewField, Slot(n)`lastUpdatePoint
      modifies exts[n].fieldSqaerp, exts[n].actor`angY, exts[n].actor`motionAngY, lists, lists.next, lists.prev, lists.lasts
      modifies Slot(n)`savedPos, exts[n].actor`pos, OthersOf(n)
      ensures Valid() && GravityUpdated(n, view) && transform == TransformsOthers(n)
      ensures transform && Redirects(n, behaving) ==>
                exts[n].actor.pos == lib.rotateAround(old(exts[n].actor.pos), old(exts[n].savedPos), exts[n].currMatrix)
                && exts[n].savedPos == exts[n].actor.pos
      ensures !(transform && Redirects(n, behaving)) ==>
                exts[n].actor.pos == old(exts[n].actor.pos) && exts[n].savedPos == old(exts[n].savedPos)
      ensures Transformed(n, true, transform)
    {
      transform := Prepare(n, view);
      assert exts[n].actor.pos == old(exts[n].actor.pos);
      label prepared:
      TransformOthers(n, true, transform);
      TransformsOthersStays@prepared(n);
    }

    /**
     * BeforeBehavior: slot n becomes the behaving actor, then its properties
     * are processed before the behaviour. The shouldTransformOthers it sets is
     * returned for the AfterBehavior of the same actor.
     */
    method BeforeBehavior(n: int, view: Mat3) returns (transform: bool)
      requires Valid() && n in alive
      modifies this`behaving, gravityField, Slot(n)`currMatrix, Slot(n)`angleToNewField, Slot(n)`lastUpdatePoint
      modifies exts[n].fieldSqaerp, exts[n].actor`angY, exts[n].actor`motionAngY, lists, lists.next, lists.prev, lists.lasts
      modifies Slot(n)`savedPos, exts[n].actor`pos, OthersOf(n)
      ensures Valid() && behaving == n && GravityUpdated(n, view) && transform == TransformsOthers(n)
      ensures transform ==>
                exts[n].actor.pos == lib.rotateAround(old(exts[n].actor.pos), old(exts[n].savedPos), exts[n].currMatrix)
                && exts[n].savedPos == exts[n].actor.pos
      ensures !transform ==> exts[n].actor.pos == old(exts[n].actor.pos) && exts[n].savedPos == old(exts[n].savedPos)
      ensures Transformed(n, true, transform)
    {
      behaving := n;
      assert this !in OthersOf(n);
      assert forall k :: 0 <= k < |exts| ==> exts[k].SnapOf() == old(exts[k].SnapOf());
      transform := ProcessBefore(n, view);
    }

    /**
     * AfterBehavior: while an actor is behaving, slot n's properties are
     * processed after the behaviour with the shouldTransformOthers of the
     * last BeforeBehavior, and no actor is behaving any more.
     */
    method AfterBehavior(n: int, transform: bool)
      requires Valid() && n in alive
      modifies this`behaving, Slot(n)`savedPos, exts[n].actor`pos, OthersOf(n)
      ensures Valid() && behaving == NULL
      ensures transform && old(behaving) != NULL && Redirects(n, old(behaving)) ==>
                exts[n].actor.pos == lib.rotateAround(old(exts[n].actor.pos), old(exts[n].savedPos), exts[n].currMatrix)
                && exts[n].savedPos == exts[n].actor.pos
      ensures !(transform && old(behaving) != NULL && Redirects(n, old(behaving))) ==>
                exts[n].actor.pos == old(exts[n].actor.pos) && exts[n].savedPos == old(exts[n].savedPos)
      ensures Transformed(n, false, transform && old(behaving) != NULL)
    {
      if behaving != NULL {
        assert this !in OthersOf(n);
        TransformOthers(n, false, transform);
        behaving := NULL;
      }
    }

    /** TransformsOthers depends on the field, the budget and the hand flag only. */
    twostate lemma TransformsOthersStays(n: int)
      requires 0 <= n < |exts| && n < gravityField.Length && old(ValidRef(chain, gravityField[n]))
      requires unchanged(gravityField, Slot(n)`angleToNewField, exts[n].actor`inPlayerHand)
      ensures ValidRef(chain, gravityField[n]) && TransformsOthers(n) == old(TransformsOthers(n))
    {
    }
  }
}
