// PlanetCam: the parts of the planet camera that are bookkeeping rather
// than geometry.  These are the level's settings table and how a camera
// picks and blends its settings, the inactivity timer of the manual reset,
// and the ratio scaling that makes the reset's rotations and approach
// finish together.  Positions, altitudes and angles that the geometry
// computes enter here as parameters.

module PlanetCamera {
  import opened FixedMath
  import opened GravityFields
  import opened Interp

  // ---------------------------------------------------------------------
  // The settings table

  /** The positions of the eight settings of one entry. */
  const MAX_ALTITUDE_DIFF: nat := 0
  const MIN_ALTITUDE_DIFF: nat := 1
  const MAX_HORZ_DIST: nat := 2
  const TARGET_ALTITUDE_RANGE: nat := 3
  const TARGET_VERT_OFFSET: nat := 4
  const ALTITUDE_APPROACH_SPEED: nat := 5
  const TRANSITION_FRAMES: nat := 6
  const FLAGS: nat := 7
  const NUM_SETTINGS: nat := 8

  /** The number of blended settings: settingInterps has five entries. */
  const NUM_INTERPS: nat := 5

  /** Bit 0 of FLAGS: the entry also applies while the player is in the air. */
  const ACTIVATES_IN_AIR: int := 1

  /** defaultSettings. */
  const DefaultSettings: seq<int> := [1000, 250, 1000, 250, 0, 30, 24, 0]

  /**
   * The level overlay's planetCamSettingsArray, as s16 values: the entry
   * count (read as u16), then eight settings per entry.  NoTable is the
   * null array.
   */
  datatype SettingsTable = NoTable | Table(data: seq<int>)

  /** A const s16* to settings: null, into the level's table, or defaultSettings. */
  datatype SettingsPtr = Null | InLevel(offset: nat) | Defaults

  function U16(x: int): (r: int)
    ensures 0 <= r < 0x10000 && (0 <= x < 0x10000 ==> r == x)
  {
    x % 0x10000
  }

  /** The number of entries the table declares. */
  function Count(data: seq<int>): nat
    requires |data| >= 1
  {
    U16(data[0])
  }

  /** A table that holds every entry it declares. */
  predicate WellFormed(table: SettingsTable)
  {
    table.Table? ==> |table.data| >= 1 && |table.data| >= 1 + NUM_SETTINGS * Count(table.data)
  }

  /** A pointer whose eight settings can be read. */
  predicate Readable(table: SettingsTable, p: SettingsPtr)
  {
    match p
    case Null => false
    case Defaults => true
    case InLevel(o) => table.Table? && o + NUM_SETTINGS <= |table.data|
  }

  /** GetSettings(id): null without a table or for an id past the count, else entry id. */
  function GetSettings(table: SettingsTable, id: nat): (r: SettingsPtr)
    requires WellFormed(table)
    ensures r == Null <==> table.NoTable? || id >= Count(table.data)
    ensures r != Null ==> r == InLevel(1 + NUM_SETTINGS * id)
  {
    if table.NoTable? then Null
    else if id < Count(table.data) then InLevel(1 + NUM_SETTINGS * id)
    else Null
  }

  /** An entry GetSettings returns lies inside the table. */
  lemma GetSettingsReadable(table: SettingsTable, id: nat)
    requires WellFormed(table) && GetSettings(table, id) != Null
    ensures Readable(table, GetSettings(table, id))
  {
    var n := Count(table.data);
    assert id + 1 <= n;
    assert NUM_SETTINGS * (id + 1) <= NUM_SETTINGS * n;
  }

  /** currSettings[i]. */
  function SettingValue(table: SettingsTable, p: SettingsPtr, i: nat): int
    requires Readable(table, p) && i < NUM_SETTINGS
  {
    match p
    case Defaults => DefaultSettings[i]
    case InLevel(o) => table.data[o + i]
  }

  /** The conversion of an integer setting to a Fix12i (the value shifted left by 12). */
  function ToFix12(v: int): int
  {
    v * ONE12
  }

  /** Bit ACTIVATES_IN_AIR of FLAGS; % is Euclidean, so this is bit 0 of the two's complement. */
  predicate ActivatesInAir(table: SettingsTable, p: SettingsPtr)
    requires Readable(table, p)
  {
    SettingValue(table, p, FLAGS) % 2 == ACTIVATES_IN_AIR
  }

  /**
   * The constructor's choice of settings: the entry of the field's
   * camSettingsID, else the previous camera's (a PlanetCam's currSettings,
   * null for any other controller), else defaultSettings.
   */
  function InitialSettings(table: SettingsTable, camSettingsID: nat, prevSettings: SettingsPtr): (r: SettingsPtr)
    requires WellFormed(table) && (prevSettings == Null || Readable(table, prevSettings))
    ensures Readable(table, r)
    ensures GetSettings(table, camSettingsID) != Null ==> r == GetSettings(table, camSettingsID)
    ensures GetSettings(table, camSettingsID) == Null && prevSettings != Null ==> r == prevSettings
    ensures GetSettings(table, camSettingsID) == Null && prevSettings == Null ==> r == Defaults
  {
    var s := GetSettings(table, camSettingsID);
    if s != Null then GetSettingsReadable(table, camSettingsID); s
    else if prevSettings != Null then prevSettings
    else Defaults
  }

  /**
   * The selection of UpdateSettings: on the ground, the entry of the floor
   * the player stands on; in the air, the entry of the ground below if
   * there is any ground below and the entry activates in the air or the
   * player is warping; otherwise none.  floorParam and groundParam are the
   * floors' CLPS padding2 fields.
   */
  function NewSettings(table: SettingsTable, inAir: bool, floorParam: nat, groundParam: Option<nat>, warping: bool): (r: SettingsPtr)
    requires WellFormed(table)
    ensures r == Null || Readable(table, r)
    ensures !inAir ==> r == GetSettings(table, floorParam % 0x100)
    ensures inAir && r != Null ==> groundParam.Some? && r == GetSettings(table, groundParam.value % 0x100)
    ensures inAir ==>
              (r != Null <==> groundParam.Some? && GetSettings(table, groundParam.value % 0x100) != Null
                              && (warping || ActivatesInAir(table, GetSettings(table, groundParam.value % 0x100))))
  {
    if !inAir then
      var s := GetSettings(table, floorParam % 0x100);
      if s != Null then GetSettingsReadable(table, floorParam % 0x100); s else s
    else if groundParam.Some? then
      var s := GetSettings(table, groundParam.value % 0x100);
      if s == Null then Null
      else
        GetSettingsReadable(table, groundParam.value % 0x100);
        if !ActivatesInAir(table, s) && !warping then Null else s
    else Null
  }

  /**
   * settingTransitionSpeed: 1 / (u16(TRANSITION_FRAMES) + 1) in Q12.  The
   * divisor is at least 1, and the speed is 0, so the settings never
   * blend, once the frame count as u16 reaches 4096.
   */
  function TransitionSpeed(frames: int): (r: int)
    ensures 0 <= r <= ONE12
    ensures r == ONE12 <==> U16(frames) == 0
    ensures r > 0 <==> U16(frames) < ONE12
  {
    var d := U16(frames) + 1;
    DivideOne12(d);
    ONE12 / d
  }

  /** The quotient of ONE12 by d >= 1: at most ONE12, equal to it only for d = 1, and 0 exactly when d > ONE12. */
  lemma DivideOne12(d: int)
    requires d >= 1
    ensures 0 <= ONE12 / d <= ONE12
    ensures ONE12 / d == ONE12 <==> d == 1
    ensures ONE12 / d > 0 <==> d <= ONE12
  {
    var q := ONE12 / d;
    assert q * d + ONE12 % d == ONE12 && 0 <= ONE12 % d < d;
    assert q >= 0 by {
      if q < 0 { MulMono(q, -1, d); }
    }
    if d >= 2 && q > 0 {
      MulMono(2, d, q);
      assert q * 2 <= ONE12;
    }
    if q >= 1 {
      MulMono(1, q, d);
    }
  }

  // ---------------------------------------------------------------------
  // The blended settings of one PlanetCam

  /** currSettings, settingInterps, the two speeds and camAltitude of a PlanetCam. */
  class PlanetSettings {
    const table: SettingsTable
    var curr: SettingsPtr
    const interps: seq<SmoothInterp>
    var transitionSpeed: int
    var approachSpeed: int
    var camAltitude: int

    /** Five distinct interpolators and readable current settings. */
    ghost predicate Layout()
      reads this
    {
      && WellFormed(table)
      && Readable(table, curr)
      && |interps| == NUM_INTERPS
      && (forall i, j :: 0 <= i < j < |interps| ==> interps[i] != interps[j])
    }

    ghost predicate Valid()
      reads this
    {
      && Layout()
      && transitionSpeed == TransitionSpeed(SettingValue(table, curr, TRANSITION_FRAMES))
      && approachSpeed == ToFix12(SettingValue(table, curr, ALTITUDE_APPROACH_SPEED))
    }

    /** GetSetting<i>: the current value of interpolator i. */
    function GetSetting(lib: Lib, i: nat): int
      requires Valid() && i < NUM_INTERPS
      reads this, interps[i]
    {
      interps[i].GetValue(lib)
    }

    /**
     * The settings part of the PlanetCam constructor: currSettings by the
     * fallback, every interpolator initialised to its setting, and the
     * transition speeds.
     */
    constructor(lib: Lib, table: SettingsTable, camSettingsID: nat, prevSettings: SettingsPtr, camAltitude: int)
      requires FixProduct(lib.mul12, ONE12)
      requires WellFormed(table) && (prevSettings == Null || Readable(table, prevSettings))
      ensures Valid() && this.table == table && this.camAltitude == camAltitude
      ensures curr == InitialSettings(table, camSettingsID, prevSettings)
      ensures forall i :: 0 <= i < NUM_INTERPS ==>
                fresh(interps[i]) && GetSetting(lib, i) == ToFix12(SettingValue(table, curr, i))
                && interps[i].GetTarget() == ToFix12(SettingValue(table, curr, i))
    {
      var c := InitialSettings(table, camSettingsID, prevSettings);
      var made: seq<SmoothInterp> := [];
      for i := 0 to NUM_INTERPS
        invariant |made| == i
        invariant forall j, k :: 0 <= j < k < i ==> made[j] != made[k]
        invariant forall j :: 0 <= j < i ==>
                    fresh(made[j]) && made[j].GetValue(lib) == ToFix12(SettingValue(table, c, j))
                    && made[j].GetTarget() == ToFix12(SettingValue(table, c, j))
      {
        var x := new SmoothInterp(lib, ToFix12(SettingValue(table, c, i)));
        made := made + [x];
      }
      this.table := table;
      curr := c;
      interps := made;
      transitionSpeed := TransitionSpeed(SettingValue(table, c, TRANSITION_FRAMES));
      approachSpeed := ToFix12(SettingValue(table, c, ALTITUDE_APPROACH_SPEED));
      this.camAltitude := camAltitude;
    }

    /** UpdateTransitionSpeeds: both speeds from currSettings. */
    method UpdateTransitionSpeeds()
      requires Readable(table, curr)
      modifies this`transitionSpeed, this`approachSpeed
      ensures transitionSpeed == TransitionSpeed(SettingValue(table, curr, TRANSITION_FRAMES))
      ensures approachSpeed == ToFix12(SettingValue(table, curr, ALTITUDE_APPROACH_SPEED))
    {
      transitionSpeed := TransitionSpeed(SettingValue(table, curr, TRANSITION_FRAMES));
      approachSpeed := ToFix12(SettingValue(table, curr, ALTITUDE_APPROACH_SPEED));
    }

    /**
     * Lines 103-111 of UpdateSettings: only settings that exist and differ
     * from the current ones are taken; then every interpolator is retargeted
     * to its new setting without a jump in value or speed.
     */
    method Retarget(lib: Lib, newSettings: SettingsPtr) returns (changed: bool)
      requires Valid() && FixProduct(lib.mul12, ONE12)
      requires newSettings == Null || Readable(table, newSettings)
      modifies this`curr, this`transitionSpeed, this`approachSpeed, interps
      ensures Valid() && changed == (newSettings != Null && newSettings != old(curr))
      ensures curr == if changed then newSettings else old(curr)
      ensures forall i :: 0 <= i < NUM_INTERPS ==>
                GetSetting(lib, i) == old(GetSetting(lib, i)) && interps[i].GetSpeed(lib) == old(interps[i].GetSpeed(lib))
      ensures changed ==> forall i :: 0 <= i < NUM_INTERPS ==>
                interps[i].GetTarget() == ToFix12(SettingValue(table, curr, i)) && interps[i].t == 0
                && interps[i].h == old(GetSetting(lib, i)) - interps[i].h1 && interps[i].k == old(interps[i].GetSpeed(lib))
      ensures !changed ==> transitionSpeed == old(transitionSpeed) && approachSpeed == old(approachSpeed)
      ensures !changed ==> forall i :: 0 <= i < NUM_INTERPS ==> unchanged(interps[i])
    {
      if newSettings == Null || newSettings == curr {
        return false;
      }
      curr := newSettings;
      RetargetAll(lib);
      UpdateTransitionSpeeds();
      return true;
    }

    /** The loop of Retarget: interpolator i is retargeted to setting i of currSettings. */
    method RetargetAll(lib: Lib)
      requires Layout() && FixProduct(lib.mul12, ONE12)
      modifies interps
      ensures forall i :: 0 <= i < NUM_INTERPS ==>
                interps[i].GetValue(lib) == old(interps[i].GetValue(lib)) && interps[i].GetSpeed(lib) == old(interps[i].GetSpeed(lib))
                && interps[i].GetTarget() == ToFix12(SettingValue(table, curr, i)) && interps[i].t == 0
      ensures forall i :: 0 <= i < NUM_INTERPS ==>
                interps[i].h == old(interps[i].GetValue(lib)) - interps[i].h1 && interps[i].k == old(interps[i].GetSpeed(lib))
    {
      ghost var values := seq(NUM_INTERPS, j requires 0 <= j < NUM_INTERPS reads interps => interps[j].GetValue(lib));
      ghost var speeds := seq(NUM_INTERPS, j requires 0 <= j < NUM_INTERPS reads interps => interps[j].GetSpeed(lib));
      for i := 0 to NUM_INTERPS
        invariant forall j :: i <= j < NUM_INTERPS ==>
                    interps[j].h1 == old(interps[j].h1) && interps[j].h == old(interps[j].h)
                    && interps[j].k == old(interps[j].k) && interps[j].t == old(interps[j].t)
        invariant forall j :: 0 <= j < i ==>
                    interps[j].GetValue(lib) == values[j] && interps[j].GetSpeed(lib) == speeds[j]
                    && interps[j].GetTarget() == ToFix12(SettingValue(table, curr, j)) && interps[j].t == 0
                    && interps[j].h == values[j] - interps[j].h1 && interps[j].k == speeds[j]
      {
        interps[i].SetTarget(lib, ToFix12(SettingValue(table, curr, i)));
      }
    }

    /** Lines 115-116 of UpdateSettings: every interpolator advances by the transition speed. */
    method AdvanceAll()
      requires Valid()
      modifies interps
      ensures forall i :: 0 <= i < NUM_INTERPS ==>
                interps[i].t == ApproachLinear(old(interps[i].t), ONE12, transitionSpeed)
                && interps[i].h1 == old(interps[i].h1) && interps[i].h == old(interps[i].h) && interps[i].k == old(interps[i].k)
    {
      for i := 0 to NUM_INTERPS
        invariant forall j :: 0 <= j < NUM_INTERPS ==>
                    interps[j].h1 == old(interps[j].h1) && interps[j].h == old(interps[j].h) && interps[j].k == old(interps[j].k)
        invariant forall j :: 0 <= j < NUM_INTERPS ==>
                    interps[j].t == if j < i then ApproachLinear(old(interps[j].t), ONE12, transitionSpeed) else old(interps[j].t)
      {
        interps[i].Advance(transitionSpeed);
      }
    }

    /**
     * UpdateSettings: select, retarget, advance.  When the selection
     * changes, every interpolator restarts from its current value and speed
     * towards its new setting and the speeds are recomputed; then every
     * interpolator advances by the transition speed.  camAltitude moves by
     * exactly as much as the MAX_ALTITUDE_DIFF setting does this frame.
     */
    method UpdateSettings(lib: Lib, inAir: bool, floorParam: nat, groundParam: Option<nat>, warping: bool)
      requires Valid() && FixProduct(lib.mul12, ONE12)
      modifies this`curr, this`transitionSpeed, this`approachSpeed, this`camAltitude, interps
      ensures Valid()
      ensures var s := NewSettings(table, inAir, floorParam, groundParam, warping);
              curr == if s != Null && s != old(curr) then s else old(curr)
      ensures transitionSpeed == if curr != old(curr) then TransitionSpeed(SettingValue(table, curr, TRANSITION_FRAMES)) else old(transitionSpeed)
      ensures approachSpeed == if curr != old(curr) then ToFix12(SettingValue(table, curr, ALTITUDE_APPROACH_SPEED)) else old(approachSpeed)
      ensures curr != old(curr) ==> forall i :: 0 <= i < NUM_INTERPS ==>
                interps[i].h1 == ToFix12(SettingValue(table, curr, i))
                && interps[i].h == old(GetSetting(lib, i)) - interps[i].h1 && interps[i].k == old(interps[i].GetSpeed(lib))
                && interps[i].t == ApproachLinear(0, ONE12, transitionSpeed)
      ensures curr == old(curr) ==> forall i :: 0 <= i < NUM_INTERPS ==>
                interps[i].h1 == old(interps[i].h1) && interps[i].h == old(interps[i].h) && interps[i].k == old(interps[i].k)
                && interps[i].t == ApproachLinear(old(interps[i].t), ONE12, transitionSpeed)
      ensures camAltitude - old(camAltitude) == GetSetting(lib, MAX_ALTITUDE_DIFF) - old(GetSetting(lib, MAX_ALTITUDE_DIFF))
    {
      var newSettings := NewSettings(table, inAir, floorParam, groundParam, warping);
      var _ := Retarget(lib, newSettings);
      AdvanceSettings(lib);
    }

    /**
     * Lines 113-118 of UpdateSettings: every interpolator advances by the
     * transition speed, and camAltitude follows the MAX_ALTITUDE_DIFF setting.
     */
    method AdvanceSettings(lib: Lib)
      requires Valid()
      modifies this`camAltitude, interps
      ensures Valid()
      ensures forall i :: 0 <= i < NUM_INTERPS ==>
                interps[i].t == ApproachLinear(old(interps[i].t), ONE12, transitionSpeed)
                && interps[i].h1 == old(interps[i].h1) && interps[i].h == old(interps[i].h) && interps[i].k == old(interps[i].k)
      ensures camAltitude - old(camAltitude) == GetSetting(lib, MAX_ALTITUDE_DIFF) - old(GetSetting(lib, MAX_ALTITUDE_DIFF))
    {
      camAltitude := camAltitude - interps[MAX_ALTITUDE_DIFF].GetValue(lib);
      AdvanceAll();
      camAltitude := camAltitude + interps[MAX_ALTITUDE_DIFF].GetValue(lib);
    }
  }

  // ---------------------------------------------------------------------
  // The inactivity timer of ManualResetHandler

  /** The timer's saturation value, which is also its initial one. */
  const IDLE_TIMER: int := 8

  /** horzDist and inactivityTimer as one value. */
  datatype ResetState = ResetState(horzDist: int, inactivityTimer: int)

  /** One frame of Update while the reset is inactive and L is not held. */
  function IdleStep(s: ResetState): (r: ResetState)
  {
    if s.inactivityTimer >= IDLE_TIMER then s.(horzDist := -1)
    else s.(inactivityTimer := s.inactivityTimer + 1)
  }

  /** k such frames. */
  function IdleRun(s: ResetState, k: nat): ResetState
    decreases k
  {
    if k == 0 then s else IdleRun(IdleStep(s), k - 1)
  }

  /**
   * From a timer between 1 and 8, k idle frames leave the timer at
   * min(timer + k, 8); horzDist is kept until the frame after the timer
   * reaches 8, and is -1 from then on.
   */
  lemma {:induction false} IdleRunSaturates(s: ResetState, k: nat)
    requires 1 <= s.inactivityTimer <= IDLE_TIMER
    ensures IdleRun(s, k).inactivityTimer == Min(s.inactivityTimer + k, IDLE_TIMER)
    ensures k <= IDLE_TIMER - s.inactivityTimer ==> IdleRun(s, k).horzDist == s.horzDist
    ensures k > IDLE_TIMER - s.inactivityTimer ==> IdleRun(s, k).horzDist == -1
    decreases k
  {
    if k > 0 {
      IdleRunSaturates(IdleStep(s), k - 1);
    }
  }

  /** ManualResetHandler; playerRight is not part of this model. */
  class ManualResetHandler {
    var horzDist: int
    var inactivityTimer: int
    var angle: int

    ghost predicate Valid()
      reads this
    {
      0 <= inactivityTimer <= IDLE_TIMER
    }

    function State(): ResetState
      reads this
    {
      ResetState(horzDist, inactivityTimer)
    }

    /** IsActive: the timer is 0. */
    predicate IsActive()
      reads this
    {
      inactivityTimer == 0
    }

    /** The member initialisers: horzDist -1, timer 8 (angle starts unset; 0 here). */
    constructor()
      ensures Valid() && horzDist == -1 && inactivityTimer == IDLE_TIMER && !IsActive()
    {
      horzDist := -1;
      inactivityTimer := IDLE_TIMER;
      angle := 0;
    }

    /** Start: the timer drops to 0; horzDist and angle come from the geometry. */
    method Start(horz: int, playerAngle: int)
      modifies this
      ensures Valid() && IsActive() && horzDist == horz && angle == playerAngle
    {
      inactivityTimer := 0;
      horzDist := horz;
      angle := playerAngle;
    }

    /** Stop: an active reset becomes inactive with timer 1; otherwise nothing changes. */
    method Stop()
      requires Valid()
      modifies this`inactivityTimer
      ensures Valid() && !IsActive()
      ensures inactivityTimer == if old(inactivityTimer) == 0 then 1 else old(inactivityTimer)
    {
      if inactivityTimer == 0 {
        inactivityTimer := 1;
      }
    }

    /**
     * The timer branch of Update (lines 236-249): while inactive, holding L
     * starts the reset, otherwise the frame is an idle step.  The rest of
     * Update runs exactly when the reset is active afterwards.
     */
    method UpdateTimer(lHeld: bool, horz: int, playerAngle: int) returns (proceed: bool)
      requires Valid()
      modifies this
      ensures Valid() && proceed == IsActive()
      ensures old(inactivityTimer) == 0 ==> proceed && unchanged(this)
      ensures old(inactivityTimer) != 0 && lHeld ==> proceed && horzDist == horz && angle == playerAngle
      ensures old(inactivityTimer) != 0 && !lHeld ==> !proceed && State() == IdleStep(old(State())) && angle == old(angle)
    {
      if inactivityTimer != 0 {
        if lHeld {
          Start(horz, playerAngle);
        } else {
          if inactivityTimer >= IDLE_TIMER {
            horzDist := -1;
          } else {
            inactivityTimer := inactivityTimer + 1;
          }
          return false;
        }
      }
      return true;
    }

    /** Line 297 of Update: the reset stops, with timer 1, once all three targets are reached. */
    method Finish(reached: bool)
      requires Valid()
      modifies this`inactivityTimer
      ensures Valid() && inactivityTimer == if reached then 1 else old(inactivityTimer)
    {
      if reached {
        inactivityTimer := 1;
      }
    }
  }

  // ---------------------------------------------------------------------
  // Ratio and MinimizeRatios

  datatype Ratio = Ratio(nom: int, den: int)

  /**
   * Ratio::operator<: a ratio with denominator 0 is never less; any other
   * is less than one with denominator 0; else cross-multiplied comparison.
   */
  predicate Less(a: Ratio, b: Ratio)
  {
    if a.den == 0 then false
    else if b.den == 0 then true
    else a.nom * b.den < b.nom * a.den
  }

  /** Denominator 0 stands for an infinite ratio. */
  lemma LessZeroDen(a: Ratio, b: Ratio)
    ensures a.den == 0 ==> !Less(a, b)
    ensures a.den != 0 && b.den == 0 ==> Less(a, b)
  {
  }

  /** Multiplying an inequality by a positive number. */
  lemma MulMono(x: int, y: int, c: int)
    requires x <= y && c > 0
    ensures x * c <= y * c
  {
    assert (y - x) * c >= 0;
  }

  /** Dividing an inequality by a positive number. */
  lemma MulCancel(x: int, y: int, c: int)
    requires x * c <= y * c && c > 0
    ensures x <= y
  {
    if x > y {
      MulMono(y + 1, x, c);
    }
  }

  /** With positive denominators, "not less" is transitive. */
  lemma NotLessTransitive(x: Ratio, y: Ratio, z: Ratio)
    requires x.den > 0 && y.den > 0 && z.den > 0
    requires !Less(x, y) && !Less(y, z)
    ensures !Less(x, z)
  {
    MulMono(y.nom * x.den, x.nom * y.den, z.den);
    MulMono(z.nom * y.den, y.nom * z.den, x.den);
    assert y.nom * x.den * z.den == y.nom * z.den * x.den;
    assert z.nom * x.den * y.den <= x.nom * z.den * y.den by {
      assert z.nom * y.den * x.den == z.nom * x.den * y.den;
      assert x.nom * y.den * z.den == x.nom * z.den * y.den;
    }
    MulCancel(z.nom * x.den, x.nom * z.den, y.den);
  }

  /**
   * With no negative denominator, Less is a strict weak order: irreflexive,
   * asymmetric and negatively transitive (so also transitive).
   */
  lemma LessStrictWeakOrder(x: Ratio, y: Ratio, z: Ratio)
    requires x.den >= 0 && y.den >= 0 && z.den >= 0
    ensures !Less(x, x)
    ensures Less(x, y) ==> !Less(y, x)
    ensures Less(x, z) ==> Less(x, y) || Less(y, z)
    ensures Less(x, y) && Less(y, z) ==> Less(x, z)
  {
    if x.den > 0 && y.den > 0 && z.den > 0 {
      if !Less(x, y) && !Less(y, z) {
        NotLessTransitive(x, y, z);
      }
      if Less(x, y) && Less(y, z) && !Less(x, z) {
        if !Less(z, y) {
          NotLessTransitive(z, y, x);
        }
      }
    }
  }

  /** The index the first loop of MinimizeRatios ends with, started at i with minIndex m. */
  function MinFrom(rs: seq<Ratio>, i: nat, m: nat): (r: nat)
    requires m < |rs| && m < i
    ensures r < |rs| && (r == m || i <= r)
    ensures forall j :: i <= j < |rs| && r < j ==> !Less(rs[j], rs[r])
    decreases |rs| - i
  {
    if i >= |rs| then m
    else MinFrom(rs, i + 1, if Less(rs[i], rs[m]) then i else m)
  }

  /** minIndex of MinimizeRatios. */
  function MinIndex(rs: seq<Ratio>): (r: nat)
    requires |rs| >= 1
    ensures r < |rs|
    ensures forall j :: r < j < |rs| ==> !Less(rs[j], rs[r])
  {
    MinFrom(rs, 1, 0)
  }

  /** MinFrom keeps its index the first minimum of the prefix scanned so far. */
  lemma {:induction false} MinFromFirstMinimal(rs: seq<Ratio>, i: nat, m: nat)
    requires m < i <= |rs|
    requires forall j :: 0 <= j < |rs| ==> rs[j].den >= 0
    requires forall j :: 0 <= j < i ==> !Less(rs[j], rs[m])
    requires forall j :: 0 <= j < m ==> Less(rs[m], rs[j])
    ensures forall j :: 0 <= j < |rs| ==> !Less(rs[j], rs[MinFrom(rs, i, m)])
    ensures forall j :: 0 <= j < MinFrom(rs, i, m) ==> Less(rs[MinFrom(rs, i, m)], rs[j])
    decreases |rs| - i
  {
    if i < |rs| {
      if Less(rs[i], rs[m]) {
        forall j | 0 <= j < i
          ensures Less(rs[i], rs[j])
        {
          LessStrictWeakOrder(rs[i], rs[j], rs[m]);
        }
        forall j | 0 <= j < i + 1
          ensures !Less(rs[j], rs[i])
        {
          LessStrictWeakOrder(rs[i], rs[j], rs[j]);
        }
        MinFromFirstMinimal(rs, i + 1, i);
      } else {
        MinFromFirstMinimal(rs, i + 1, m);
      }
    }
  }

  /** With no negative denominator, minIndex is a minimum and the first one. */
  lemma MinIndexFirstMinimal(rs: seq<Ratio>)
    requires |rs| >= 1 && forall j :: 0 <= j < |rs| ==> rs[j].den >= 0
    ensures forall j :: 0 <= j < |rs| ==> !Less(rs[j], rs[MinIndex(rs)])
    ensures forall j :: 0 <= j < MinIndex(rs) ==> Less(rs[MinIndex(rs)], rs[j])
  {
    LessStrictWeakOrder(rs[0], rs[0], rs[0]);
    MinFromFirstMinimal(rs, 1, 0);
  }

  /** C++ integer division, which truncates towards zero. */
  function TruncDiv(a: int, b: int): (q: int)
    requires b != 0
    ensures Abs(q) == Abs(a) / Abs(b)
    ensures q == 0 || ((q < 0) <==> ((a < 0) != (b < 0)))
    ensures a >= 0 && b > 0 ==> q == a / b
  {
    var n, d := Abs(a), Abs(b);
    DivNonneg(n, d);
    var q := n / d;
    if (a < 0) == (b < 0) then q else -q
  }

  /** A quotient of a non-negative dividend by a positive divisor is non-negative. */
  lemma DivNonneg(n: int, d: int)
    requires n >= 0 && d > 0
    ensures n / d >= 0
  {
  }

  /** Unlike Dafny's Euclidean division, truncation is symmetric in the sign of the dividend. */
  lemma TruncDivNegate(a: int, b: int)
    requires b != 0
    ensures TruncDiv(-a, b) == -TruncDiv(a, b)
  {
    assert Abs(-a) == Abs(a);
    if a == 0 {
      assert TruncDiv(a, b) == 0;
    }
  }

  /** The array after MinimizeRatios: every other entry rescaled to the minimum's ratio. */
  function Minimized(rs: seq<Ratio>): (r: seq<Ratio>)
    requires |rs| >= 1 && (|rs| >= 2 ==> rs[MinIndex(rs)].den != 0)
    ensures |r| == |rs|
  {
    var m := MinIndex(rs);
    seq(|rs|, i requires 0 <= i < |rs| =>
      if i == m then rs[i] else Ratio(TruncDiv(rs[i].den * rs[m].nom, rs[m].den), rs[i].den))
  }

  /** MinimizeRatios keeps the minimum entry and every denominator. */
  lemma MinimizedKeeps(rs: seq<Ratio>)
    requires |rs| >= 1 && (|rs| >= 2 ==> rs[MinIndex(rs)].den != 0)
    ensures Minimized(rs)[MinIndex(rs)] == rs[MinIndex(rs)]
    ensures forall i :: 0 <= i < |rs| ==> Minimized(rs)[i].den == rs[i].den
  {
  }

  /**
   * With positive denominators and a non-negative minimum numerator, no
   * rescaled entry exceeds the minimum ratio (truncation only rounds down).
   */
  lemma MinimizedNotAbove(rs: seq<Ratio>)
    requires |rs| >= 1 && forall j :: 0 <= j < |rs| ==> rs[j].den > 0
    requires rs[MinIndex(rs)].nom >= 0
    ensures forall i :: 0 <= i < |rs| ==> !Less(Minimized(rs)[MinIndex(rs)], Minimized(rs)[i])
  {
    var m := MinIndex(rs);
    var r := Minimized(rs);
    forall i | 0 <= i < |rs|
      ensures !Less(r[m], r[i])
    {
      if i != m {
        var a := rs[i].den * rs[m].nom;
        var q := a / rs[m].den;
        assert a >= 0 by { MulMono(0, rs[m].nom, rs[i].den); }
        assert r[i].nom == q;
        assert q * rs[m].den <= a;
        assert rs[m].nom * rs[i].den == a;
      }
    }
  }

  /** minIndex of MinimizeRatios ends on a zero denominator only when every denominator is 0. */
  lemma {:induction false} MinFromZeroDen(rs: seq<Ratio>, i: nat, m: nat)
    requires m < i <= |rs|
    requires forall j :: 0 <= j < i && rs[j].den != 0 ==> rs[m].den != 0
    ensures rs[MinFrom(rs, i, m)].den == 0 ==> forall j :: 0 <= j < |rs| ==> rs[j].den == 0
    decreases |rs| - i
  {
    if i < |rs| {
      LessZeroDen(rs[i], rs[m]);
      MinFromZeroDen(rs, i + 1, if Less(rs[i], rs[m]) then i else m);
    }
  }

  /** The minimum's denominator is 0 exactly when every denominator is. */
  lemma MinIndexZeroDen(rs: seq<Ratio>)
    requires |rs| >= 1
    ensures rs[MinIndex(rs)].den == 0 <==> forall j :: 0 <= j < |rs| ==> rs[j].den == 0
  {
    MinFromZeroDen(rs, 1, 0);
  }

  /**
   * The ratios ManualResetHandler::Update hands to MinimizeRatios: the two
   * angular speeds 0x400 clamped to their angle distances, and the
   * horizontal speed 50 over the distance left to maxHorzDist.  The angle
   * distances come from the camera geometry, which is not modelled.
   */
  function ResetRatios(angleDist1: int, angleDist2: int, maxHorzDist: int, horzDist: int): (r: seq<Ratio>)
    ensures |r| == 3 && r[2].den == maxHorzDist - horzDist
    ensures forall i :: 0 <= i < 2 ==> r[i].nom <= 0x400
  {
    [Ratio(if 0x400 > angleDist1 then angleDist1 else 0x400, angleDist1),
     Ratio(if 0x400 > angleDist2 then angleDist2 else 0x400, angleDist2),
     Ratio(50, maxHorzDist - horzDist)]
  }

  /**
   * As written, a reset that starts with both angles reached and the camera
   * at its maximum horizontal distance hands MinimizeRatios three zero
   * denominators: minIndex then names a zero denominator, and the second
   * loop divides by it.
   */
  lemma MinimizeRatiosZeroDivisor(maxHorzDist: int)
    ensures var rs := ResetRatios(0, 0, maxHorzDist, maxHorzDist);
      rs[MinIndex(rs)].den == 0
  {
    var rs := ResetRatios(0, 0, maxHorzDist, maxHorzDist);
    MinIndexZeroDen(rs);
  }

  /** MinimizeRatios with its division guarded: an array whose minimum has denominator 0 stays as it is. */
  function MinimizedGuarded(rs: seq<Ratio>): (r: seq<Ratio>)
    requires |rs| >= 1
    ensures |r| == |rs|
  {
    if rs[MinIndex(rs)].den == 0 then rs else Minimized(rs)
  }

  /**
   * The guarded version is defined on every array, leaves an array of zero
   * denominators unchanged, and agrees with the source wherever the
   * source's division is defined.
   */
  lemma MinimizedGuardedCases(rs: seq<Ratio>)
    requires |rs| >= 1
    ensures (forall j :: 0 <= j < |rs| ==> rs[j].den == 0) ==> MinimizedGuarded(rs) == rs
    ensures (exists j :: 0 <= j < |rs| && rs[j].den != 0) ==> rs[MinIndex(rs)].den != 0 && MinimizedGuarded(rs) == Minimized(rs)
  {
    MinIndexZeroDen(rs);
  }

  /** The first loop of MinimizeRatios. */
  method FindMinIndex(arr: array<Ratio>) returns (minIndex: nat)
    requires arr.Length >= 1
    ensures minIndex == MinIndex(arr[..])
  {
    minIndex := 0;
    for i := 1 to arr.Length
      invariant minIndex < i && MinFrom(arr[..], i, minIndex) == MinIndex(arr[..])
    {
      if Less(arr[i], arr[minIndex]) {
        minIndex := i;
      }
    }
  }

  /** The second loop of MinimizeRatios: every entry but the minimum is rescaled to its ratio. */
  method RescaleOthers(arr: array<Ratio>, minIndex: nat)
    requires arr.Length >= 1 && minIndex == MinIndex(arr[..])
    requires arr.Length >= 2 ==> arr[minIndex].den != 0
    modifies arr
    ensures arr[..] == Minimized(old(arr[..]))
  {
    ghost var rs := arr[..];
    var minRatio := arr[minIndex];
    for i := 0 to arr.Length
      invariant arr[minIndex] == minRatio
      invariant forall j :: 0 <= j < arr.Length ==> arr[j] == if j < i then Minimized(rs)[j] else rs[j]
    {
      if i != minIndex {
        arr[i] := arr[i].(nom := TruncDiv(arr[i].den * arr[minIndex].nom, arr[minIndex].den));
      }
    }
  }

  /**
   * MinimizeRatios over arr: the first loop finds minIndex, the second
   * rescales every other entry.  The source's template length n is at least
   * 1, and the minimum's denominator must be non-zero when there is any
   * other entry, since the source divides by it (MinimizeRatiosZeroDivisor
   * shows an array the caller builds where it is 0).
   */
  method MinimizeRatios(arr: array<Ratio>)
    requires arr.Length >= 1 && (arr.Length >= 2 ==> arr[MinIndex(arr[..])].den != 0)
    modifies arr
    ensures arr[..] == Minimized(old(arr[..]))
  {
    var minIndex := FindMinIndex(arr);
    RescaleOthers(arr, minIndex);
  }

  /** MinimizeRatios with the division by a zero denominator skipped: defined on every array. */
  method MinimizeRatiosGuarded(arr: array<Ratio>)
    requires arr.Length >= 1
    modifies arr
    ensures arr[..] == MinimizedGuarded(old(arr[..]))
  {
    var minIndex := FindMinIndex(arr);
    if arr[minIndex].den != 0 {
      RescaleOthers(arr, minIndex);
    }
  }
}
