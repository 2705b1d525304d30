// The angular-velocity controller `Sqaerp` and the two smooth interpolators
// `SmoothInterp` and `UnitSmoothInterp` of gravity_math.

module Interp {
  import opened FixedMath

  // ---------------------------------------------------------------------
  // Sqaerp ("spherical quadratically adaptive interpolation")

  /** The velocity, returned angle and vector after one Sqaerp step. */
  datatype SqaerpOut = SqaerpOut(vel: S16, angle: int, v: Vec3)

  /**
   * The new angular velocity: accelerate (more negative) while the angle
   * left is above the braking distance vel^2 / (2 accel) and no brake is
   * asked for, otherwise decelerate towards 0.  Both updates are stored
   * in a short.
   */
  function NextVel(vel: S16, accel: int, currAngle: int, brake: bool): (r: S16)
    requires accel > 0
    ensures !(currAngle > vel * vel / (accel * 2) && !brake) ==> r <= 0
    ensures currAngle > vel * vel / (accel * 2) && !brake ==> (r - (vel - accel)) % 0x10000 == 0
  {
    if currAngle > vel * vel / (accel * 2) && !brake then WrapS16(vel - accel)
    else Min(WrapS16(vel + accel), 0)
  }

  /**
   * Sqaerp::operator(): one step of turning v towards target.  With a
   * positive acceleration the angle still to go is capped by maxAngle;
   * the velocity is updated; if the velocity does not cover the angle the
   * vector turns so that (angle + velocity) remains, otherwise it snaps
   * onto the target and the velocity is cleared.
   */
  function SqaerpStep(lib: Lib, vel: S16, v: Vec3, target: Vec3, accel: S16, brake: bool, maxAngle: int): (r: SqaerpOut)
    // a non-positive acceleration is a no-op returning 0
    ensures accel <= 0 ==> r == SqaerpOut(vel, 0, v)
    // the returned angle is never negative, and without wrap-around of the
    // velocity it is at most min(v.AngleTo(target), maxAngle)
    ensures r.angle >= 0
    ensures r.angle > 0 && r.vel <= 0 ==> r.angle <= Min(AngleTo(lib, v, target), maxAngle)
    // a zero result after a positive acceleration is an exact snap
    ensures accel > 0 && r.angle == 0 ==> r.v == target && r.vel == 0
    // otherwise the vector is set to the remaining angle from target
    ensures r.angle > 0 ==> r.angle == Min(AngleTo(lib, v, target), maxAngle) + r.vel
                            && r.v == SetMaxAngleToNormalized(lib, v, target, WrapS16(r.angle))
  {
    if accel <= 0 then SqaerpOut(vel, 0, v)
    else
      var currAngle := Min(AngleTo(lib, v, target), maxAngle);
      var nv := NextVel(vel, accel, currAngle, brake);
      if -(nv as int) < currAngle then
        var newAngle := currAngle + nv;
        SqaerpOut(nv, newAngle, SetMaxAngleToNormalized(lib, v, target, WrapS16(newAngle)))
      else SqaerpOut(0, 0, target)
  }

  /** x / d < c with x >= 0 and d > 0 bounds x by c * d. */
  lemma DivBound(x: int, d: int, c: int)
    requires x >= 0 && d > 0 && x / d < c
    ensures x < c * d
  {
    var q := x / d;
    assert x == d * q + x % d;
    assert q + 1 <= c;
    assert d * (q + 1) <= d * c;
  }

  lemma SquareBound(vel: int, a: int)
    requires vel <= 0 && 0 < a <= 0x2000
    requires vel * vel < 2 * a * 0x8000
    ensures vel > -23171
  {
  }

  /**
   * Starting from a non-positive velocity, the velocity stays non-positive
   * for accelerations up to 0x2000 (45 degrees per step squared) while the
   * angle to go is at most 180 degrees: the braking test bounds |vel| so
   * that vel - accel cannot wrap around.
   */
  lemma SqaerpVelocityNonPositive(lib: Lib, vel: S16, v: Vec3, target: Vec3, accel: S16, brake: bool, maxAngle: int)
    requires vel <= 0
    requires accel <= 0x2000 && maxAngle <= DEG180
    ensures SqaerpStep(lib, vel, v, target, accel, brake, maxAngle).vel <= 0
  {
    if accel > 0 {
      var currAngle := Min(AngleTo(lib, v, target), maxAngle);
      if currAngle > vel * vel / (accel * 2) && !brake {
        DivBound(vel * vel, accel * 2, currAngle);
        assert vel * vel < currAngle * (accel * 2) <= 0x8000 * (accel * 2);
        SquareBound(vel, accel);
        assert -0x8000 <= vel - accel < 0x8000;
      }
    }
  }

  /** Within those bounds the returned angle lies in [0, min(v.AngleTo(target), maxAngle)]. */
  lemma SqaerpAngleInRange(lib: Lib, vel: S16, v: Vec3, target: Vec3, accel: S16, brake: bool, maxAngle: int)
    requires vel <= 0
    requires accel <= 0x2000 && maxAngle <= DEG180
    ensures var r := SqaerpStep(lib, vel, v, target, accel, brake, maxAngle);
            r.angle == 0 || 0 < r.angle <= Min(AngleTo(lib, v, target), maxAngle)
  {
    SqaerpVelocityNonPositive(lib, vel, v, target, accel, brake, maxAngle);
  }

  /**
   * Without the bound on the acceleration the short can wrap: with an
   * acceleration of 20000 and a velocity of -20000, an angle of 10001 to
   * go gives a positive velocity.
   */
  lemma SqaerpVelocityWrapExample()
    ensures NextVel(-20000, 20000, 10001, false) == 25536
  {
  }

  class Sqaerp {
    var angularVel: S16

    /** A fresh controller is at rest. */
    constructor()
      ensures angularVel == 0
    {
      angularVel := 0;
    }

    /** The copy constructor: a controller with the same velocity. */
    constructor Copy(other: Sqaerp)
      ensures angularVel == other.angularVel
    {
      angularVel := other.angularVel;
    }

    method Reset()
      modifies this
      ensures angularVel == 0
    {
      angularVel := 0;
    }

    /** One step; the in/out vector of the source is the pair (v, newV). */
    method Apply(lib: Lib, v: Vec3, target: Vec3, accel: S16, brake: bool, maxAngle: int) returns (newV: Vec3, angle: int)
      modifies this
      ensures SqaerpOut(angularVel, angle, newV) == SqaerpStep(lib, old(angularVel), v, target, accel, brake, maxAngle)
      ensures old(angularVel) <= 0 && accel <= 0x2000 && maxAngle <= DEG180 ==> angularVel <= 0
    {
      if old(angularVel) <= 0 && accel <= 0x2000 && maxAngle <= DEG180 {
        SqaerpVelocityNonPositive(lib, angularVel, v, target, accel, brake, maxAngle);
      }
      if accel <= 0 {
        return v, 0;
      }
      var currAngle := Min(AngleTo(lib, v, target), maxAngle);
      angularVel := NextVel(angularVel, accel, currAngle, brake);
      if -(angularVel as int) < currAngle {
        var newAngle := currAngle + angularVel;
        newV := SetMaxAngleToNormalized(lib, v, target, WrapS16(newAngle));
        return newV, newAngle;
      }
      angularVel := 0;
      return target, 0;
    }
  }

  // ---------------------------------------------------------------------
  // SmoothInterp

  function Sqr(lib: Lib, x: int): int { lib.mul12(x, x) }

  /**
   * Fix12i::ApproachLinear: move x towards target by step, stopping at the
   * target.
   */
  function ApproachLinear(x: int, target: int, step: int): (r: int)
    requires step >= 0
    ensures x <= target ==> x <= r <= target
    ensures target <= x ==> target <= r <= x
    ensures (target - x <= step && x - target <= step) <==> r == target
  {
    if x < target then Min(x + step, target)
    else if x > target then (if x - step > target then x - step else target)
    else x
  }

  /**
   * The cubic Hermite curve of SmoothInterp at parameter t: it starts at
   * h + h1 with slope k and ends at h1 with slope 0.
   */
  function CurveValue(lib: Lib, h1: int, h: int, k: int, t: int): int
  {
    lib.mul12(Sqr(lib, t - ONE12), lib.mul12(k + h * 2, t) + h) + h1
  }

  function CurveSpeed(lib: Lib, h1: int, h: int, k: int, t: int): int
  {
    lib.mul12(t - ONE12, lib.mul12(3 * (k + h * 2), t) - k)
  }

  /** The curve starts at h + h1 and ends at h1. */
  lemma CurveEnds(lib: Lib, h1: int, h: int, k: int)
    requires FixProduct(lib.mul12, ONE12)
    ensures CurveValue(lib, h1, h, k, 0) == h + h1
    ensures CurveValue(lib, h1, h, k, ONE12) == h1
  {
    assert lib.mul12(k + h * 2, 0) == lib.mul12(0, k + h * 2) == 0;
    assert Sqr(lib, -ONE12) == ONE12;
    assert Sqr(lib, 0) == 0;
  }

  /** The curve starts with speed k and ends at rest. */
  lemma SpeedEnds(lib: Lib, h1: int, h: int, k: int)
    requires FixProduct(lib.mul12, ONE12)
    ensures CurveSpeed(lib, h1, h, k, 0) == k
    ensures CurveSpeed(lib, h1, h, k, ONE12) == 0
  {
    assert lib.mul12(3 * (k + h * 2), 0) == lib.mul12(0, 3 * (k + h * 2)) == 0;
  }

  /** With no offset and no initial speed the curve is constant. */
  lemma CurveConstant(lib: Lib, val: int, t: int)
    requires FixProduct(lib.mul12, ONE12)
    ensures CurveValue(lib, val, 0, 0, t) == val
  {
    assert lib.mul12(0, t) == 0;
    assert lib.mul12(Sqr(lib, t - ONE12), 0) == lib.mul12(0, Sqr(lib, t - ONE12)) == 0;
  }

  class SmoothInterp {
    var h1: int
    var h: int
    var k: int
    var t: int

    function GetValue(lib: Lib): int
      reads this
    {
      CurveValue(lib, h1, h, k, t)
    }

    function GetSpeed(lib: Lib): int
      reads this
    {
      CurveSpeed(lib, h1, h, k, t)
    }

    function GetTarget(): int
      reads this
    {
      h1
    }

    /** The private Init(start, end, speed). */
    method InitCurve(start: int, end: int, speed: int)
      modifies this
      ensures h1 == end && h == start - end && k == speed && t == 0
    {
      h1 := end;
      h := start - end;
      k := speed;
      t := 0;
    }

    /** Init(val): value and target are val, and stay val whatever t becomes. */
    method Init(lib: Lib, val: int)
      modifies this
      requires FixProduct(lib.mul12, ONE12)
      ensures GetTarget() == val && GetValue(lib) == val
      ensures forall t' :: CurveValue(lib, h1, h, k, t') == val
    {
      InitCurve(val, val, 0);
      forall t' ensures CurveValue(lib, h1, h, k, t') == val {
        CurveConstant(lib, val, t');
      }
    }

    constructor(lib: Lib, val: int)
      requires FixProduct(lib.mul12, ONE12)
      ensures GetTarget() == val && GetValue(lib) == val
      ensures forall t' :: CurveValue(lib, h1, h, k, t') == val
    {
      h1 := val;
      h := 0;
      k := 0;
      t := 0;
      new;
      forall t' ensures CurveValue(lib, h1, h, k, t') == val {
        CurveConstant(lib, val, t');
      }
    }

    /**
     * SetTarget: restart the curve from the current value and speed
     * towards the new target, so neither the value nor the speed jumps.
     */
    method SetTarget(lib: Lib, val: int)
      modifies this
      requires FixProduct(lib.mul12, ONE12)
      ensures GetTarget() == val && t == 0
      ensures GetValue(lib) == old(GetValue(lib))
      ensures GetSpeed(lib) == old(GetSpeed(lib))
      ensures h1 == val && h == old(GetValue(lib)) - val && k == old(GetSpeed(lib))
    {
      var value := GetValue(lib);
      var speed := GetSpeed(lib);
      InitCurve(value, val, speed);
      CurveEnds(lib, h1, h, k);
      SpeedEnds(lib, h1, h, k);
    }

    /** Advance: move t towards 1 by deltaTime. */
    method Advance(deltaTime: int)
      modifies this
      requires deltaTime >= 0
      ensures t == ApproachLinear(old(t), ONE12, deltaTime)
      ensures h1 == old(h1) && h == old(h) && k == old(k)
    {
      t := ApproachLinear(t, ONE12, deltaTime);
    }
  }

  // ---------------------------------------------------------------------
  // UnitSmoothInterp

  /** The cubic u^2 (u * leadingCoeff + 3) of UnitSmoothInterp at u = t - end. */
  function UnitCurve(lib: Lib, u: int, leadingCoeff: int): int
  {
    lib.mul12(lib.mul12(u, u), lib.mul12(u, leadingCoeff) + 3 * ONE12)
  }

  /** The value NextValue returns: the complement of the curve when going forward. */
  function UnitValue(lib: Lib, t: int, end: int, leadingCoeff: int, complement: bool): int
  {
    var c := UnitCurve(lib, t - end, leadingCoeff);
    if complement then ONE12 - c else c
  }

  /** A finished interpolation sits at 1 going forward and at 0 going backward. */
  lemma UnitValueFinished(lib: Lib, end: int, leadingCoeff: int, complement: bool)
    requires FixProduct(lib.mul12, ONE12)
    ensures UnitValue(lib, end, end, leadingCoeff, complement) == if complement then ONE12 else 0
  {
    assert lib.mul12(0, 0) == 0;
    assert lib.mul12(0, lib.mul12(0, leadingCoeff) + 3 * ONE12) == 0;
  }

  /** A fresh interpolator (t = 0, end = 1, leading coefficient 2) starts forward at 0. */
  lemma UnitValueStart(lib: Lib)
    requires FixProduct(lib.mul12, ONE12)
    ensures UnitValue(lib, 0, ONE12, 2 * ONE12, true) == 0
  {
    assert lib.mul12(-ONE12, 2 * ONE12) == -2 * ONE12;
    assert lib.mul12(-ONE12, -ONE12) == ONE12;
    assert lib.mul12(ONE12, -2 * ONE12 + 3 * ONE12) == ONE12;
  }

  /** The end of the reversed curve, from u = t - end and the leading coefficient; wrapped to 16 bits. */
  function ReversedEnd(lib: Lib, u: int, leadingCoeff: int): S16
  {
    var w := lib.mul12(u, leadingCoeff) / 2;
    WrapS16(lib.sqrt12(lib.mul12(lib.mul12(u, u), lib.mul12(w, w) - 2 * ONE12) + ONE12) - lib.mul12(u, w + ONE12))
  }

  /** The leading coefficient of the reversed curve that ends at end'. */
  function ReversedCoeff(lib: Lib, u: int, leadingCoeff: int, end': int): int
  {
    var v := lib.mul12(u, leadingCoeff);
    lib.div12(2 * ONE12 - lib.mul12(u, 6 * (end' + u) + lib.mul12(v, 3 * end' + 2 * u)), lib.mul12(lib.mul12(end', end'), end'))
  }

  /** The fields of a UnitSmoothInterp as one value. */
  datatype UnitState = UnitState(t: S16, end: S16, complement: bool, leadingCoeff: int)

  /** The state of a freshly constructed UnitSmoothInterp. */
  const FreshUnitState: UnitState := UnitState(0, ONE12, true, 2 * ONE12)

  /** The state SwitchDirection leaves: the reversed curve restarted at t = 0, facing the other way. */
  function Switched(lib: Lib, s: UnitState): (r: UnitState)
    ensures r.t == 0 && r.complement == !s.complement
  {
    var end' := ReversedEnd(lib, s.t - s.end, s.leadingCoeff);
    UnitState(0, end', !s.complement, ReversedCoeff(lib, s.t - s.end, s.leadingCoeff, end'))
  }

  /** The state SetDirectionForward leaves. */
  function Forwarded(lib: Lib, s: UnitState): UnitState
  {
    if s.complement then s else Switched(lib, s)
  }

  /** The state SetDirectionBackward leaves. */
  function Backwarded(lib: Lib, s: UnitState): UnitState
  {
    if s.complement then Switched(lib, s) else s
  }

  /** IsFinished, on a state value: t has reached end. */
  predicate Finished(s: UnitState)
  {
    s.t == s.end
  }

  /** IsDirectionForward, on a state value. */
  predicate Forward(s: UnitState)
  {
    s.complement
  }

  /** Setting a direction establishes it, and setting it again changes nothing. */
  lemma DirectionSettersIdempotent(lib: Lib, s: UnitState)
    ensures Forward(Forwarded(lib, s)) && Forwarded(lib, Forwarded(lib, s)) == Forwarded(lib, s)
    ensures !Forward(Backwarded(lib, s)) && Backwarded(lib, Backwarded(lib, s)) == Backwarded(lib, s)
    ensures s.complement ==> Forwarded(lib, s) == s
    ensures !s.complement ==> Backwarded(lib, s) == s
  {
  }

  class UnitSmoothInterp {
    var t: S16
    var end: S16
    var complement: bool
    var leadingCoeff: int

    function State(): UnitState
      reads this
    {
      UnitState(t, end, complement, leadingCoeff)
    }

    constructor()
      ensures t == 0 && end == ONE12 && complement && leadingCoeff == 2 * ONE12
      ensures State() == FreshUnitState
    {
      t := 0;
      end := ONE12;
      complement := true;
      leadingCoeff := 2 * ONE12;
    }

    /** NextValue: advance t towards end by deltaTime and evaluate the curve. */
    method NextValue(lib: Lib, deltaTime: int) returns (val: int)
      modifies this
      requires deltaTime >= 0
      ensures t == WrapS16(ApproachLinear(old(t), old(end), deltaTime))
      ensures end == old(end) && complement == old(complement) && leadingCoeff == old(leadingCoeff)
      ensures val == UnitValue(lib, t, end, leadingCoeff, complement)
    {
      t := WrapS16(ApproachLinear(t, end, deltaTime));
      val := UnitValue(lib, t, end, leadingCoeff, complement);
    }

    /**
     * SwitchDirection: choose a new end and leading coefficient so that the
     * reversed curve continues from the current point, restart at t = 0 and
     * flip the direction.
     */
    method SwitchDirection(lib: Lib)
      modifies this
      ensures State() == Switched(lib, old(State()))
    {
      var s := Switched(lib, State());
      t, end, complement, leadingCoeff := s.t, s.end, s.complement, s.leadingCoeff;
    }

    predicate IsFinished()
      reads this
    {
      Finished(State())
    }

    predicate IsDirectionForward()
      reads this
    {
      Forward(State())
    }

    /** Establishes the forward direction; a no-op when it already holds. */
    method SetDirectionForward(lib: Lib)
      modifies this
      ensures IsDirectionForward()
      ensures State() == Forwarded(lib, old(State()))
    {
      if !IsDirectionForward() {
        SwitchDirection(lib);
      }
    }

    /** Establishes the backward direction; a no-op when it already holds. */
    method SetDirectionBackward(lib: Lib)
      modifies this
      ensures !IsDirectionForward()
      ensures State() == Backwarded(lib, old(State()))
    {
      if IsDirectionForward() {
        SwitchDirection(lib);
      }
    }
  }
}
