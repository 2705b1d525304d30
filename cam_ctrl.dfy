// CamCtrl: the stack of camera controllers.  The unique_ptr chain from
// latestCam through each controller's prev is the sequence `cams`
// (cams[0] is latestCam, cams[i + 1] is cams[i].prev); activeCam is
// `active`.  Each controller embeds a UnitSmoothInterp, by value, that
// blends it with the newer ones; its state is held as a UnitState and
// changed by the functions the interpolator's setters are proved against.
// The camera geometry (rotations, quaternion blending, the controllers'
// CalculateTransform) is not part of this model.

module CamControl {
  import opened FixedMath
  import opened GravityFields
  import opened FieldIndex
  import opened Interp

  /** The index FirstEquivalent returns when no camera qualifies. */
  const NOT_FOUND: int := -1

  datatype CamType = Vanilla | PlanetCam | FirstPerson | Cutscene

  /** Spawn's choice: a trivial field gets the vanilla camera, then a running Kuppa script, then zooming in. */
  function SpawnType(chain: seq<Field>, field: FieldRef, kuppaScript: bool, zoomedIn: bool): (r: CamType)
    requires ValidRef(chain, field)
    ensures r == Vanilla <==> Deref(chain, field).trivial
  {
    if Deref(chain, field).trivial then Vanilla
    else if kuppaScript then Cutscene
    else if zoomedIn then FirstPerson
    else PlanetCam
  }

  /** Outside trivial fields the Kuppa script outranks zooming in, which outranks the planet camera. */
  lemma SpawnTypePriority(chain: seq<Field>, field: FieldRef, kuppaScript: bool, zoomedIn: bool)
    requires ValidRef(chain, field) && !Deref(chain, field).trivial
    ensures kuppaScript ==> SpawnType(chain, field, kuppaScript, zoomedIn) == Cutscene
    ensures !kuppaScript && zoomedIn ==> SpawnType(chain, field, kuppaScript, zoomedIn) == FirstPerson
    ensures !kuppaScript && !zoomedIn ==> SpawnType(chain, field, kuppaScript, zoomedIn) == PlanetCam
  {
  }

  /**
   * CanChangeField of each controller type: the base class accepts trivial
   * fields, the first-person camera non-trivial ones, the cutscene camera
   * any.  The planet camera compares the altitude vectors of both fields at
   * its own position, given here as sameAltitudeVector.
   */
  predicate CanChangeField(chain: seq<Field>, t: CamType, newField: FieldRef, sameAltitudeVector: bool)
    requires ValidRef(chain, newField)
  {
    match t
    case Vanilla => Deref(chain, newField).trivial
    case FirstPerson => !Deref(chain, newField).trivial
    case Cutscene => true
    case PlanetCam => sameAltitudeVector
  }

  /** Of the vanilla and the first-person camera, exactly one accepts any given field. */
  lemma VanillaFirstPersonComplementary(chain: seq<Field>, newField: FieldRef, sameAltitudeVector: bool)
    requires ValidRef(chain, newField)
    ensures CanChangeField(chain, Vanilla, newField, sameAltitudeVector) != CanChangeField(chain, FirstPerson, newField, sameAltitudeVector)
  {
  }

  /** The first index from `from` on whose field is trivially equivalent to f, or NOT_FOUND. */
  function FirstEquivalent(chain: seq<Field>, fs: seq<FieldRef>, f: FieldRef, from: nat): (r: int)
    requires ValidRef(chain, f) && forall k :: 0 <= k < |fs| ==> ValidRef(chain, fs[k])
    ensures r == NOT_FOUND ==> forall k :: from <= k < |fs| ==> !IsTrivialEquivalent(chain, fs[k], f)
    ensures r != NOT_FOUND ==> from <= r < |fs| && IsTrivialEquivalent(chain, fs[r], f)
                               && forall k :: from <= k < r ==> !IsTrivialEquivalent(chain, fs[k], f)
    decreases |fs| - from
  {
    if from >= |fs| then NOT_FOUND
    else if IsTrivialEquivalent(chain, fs[from], f) then from
    else FirstEquivalent(chain, fs, f, from + 1)
  }

  /** Every state of ss, the ones after index i set to the forward direction. */
  function ForwardedAfter(lib: Lib, ss: seq<UnitState>, i: int): (r: seq<UnitState>)
    ensures |r| == |ss|
  {
    seq(|ss|, k requires 0 <= k < |ss| => if k > i then Forwarded(lib, ss[k]) else ss[k])
  }

  class Cam {
    const camType: CamType
    var field: FieldRef
    var interp: UnitState

    /** The CamCtrl constructor: a controller of the given type over field, with a fresh interpolator. */
    constructor(camType: CamType, field: FieldRef)
      ensures this.camType == camType && this.field == field
      ensures interp == FreshUnitState
    {
      this.camType := camType;
      this.field := field;
      interp := FreshUnitState;
    }

    /** TryChangeField: take the new field exactly when CanChangeField allows it. */
    method TryChangeField(chain: seq<Field>, newField: FieldRef, sameAltitudeVector: bool) returns (changed: bool)
      requires ValidRef(chain, newField)
      modifies this`field
      ensures changed == CanChangeField(chain, camType, newField, sameAltitudeVector)
      ensures field == if changed then newField else old(field)
    {
      if CanChangeField(chain, camType, newField, sameAltitudeVector) {
        field := newField;
        return true;
      }
      return false;
    }

    /** interp.SetDirectionForward(), on the embedded interpolator. */
    method SetDirectionForward(lib: Lib)
      modifies this`interp
      ensures interp == Forwarded(lib, old(interp))
    {
      interp := Forwarded(lib, interp);
    }
  }

  /** Distinct controllers. */
  ghost predicate DistinctCams(cs: seq<Cam>)
  {
    forall i, j :: 0 <= i < j < |cs| ==> cs[i] != cs[j]
  }

  /** The position of c in cs, its first occurrence. */
  ghost function IndexOf(cs: seq<Cam>, c: Cam): (r: nat)
    requires c in cs
    ensures r < |cs| && cs[r] == c && forall k :: 0 <= k < r ==> cs[k] != c
  {
    if cs[0] == c then 0 else 1 + IndexOf(cs[1..], c)
  }

  /** Prune deletes a controller that is not active and has finished its interp in the forward direction. */
  predicate Dropped(c: Cam, activeCam: Cam?)
    reads c
  {
    c != activeCam && Forward(c.interp) && Finished(c.interp)
  }

  /** The controllers of cs that Prune keeps, in order. */
  ghost function Survivors(cs: seq<Cam>, activeCam: Cam?): seq<Cam>
    reads set c | c in cs
  {
    if cs == [] then []
    else (if Dropped(cs[0], activeCam) then [] else [cs[0]]) + Survivors(cs[1..], activeCam)
  }

  /** r is cs with some elements deleted. */
  ghost predicate SubSeq<T>(r: seq<T>, cs: seq<T>)
  {
    if r == [] then true
    else if cs == [] then false
    else (r[0] == cs[0] && SubSeq(r[1..], cs[1..])) || SubSeq(r, cs[1..])
  }

  /** A controller survives iff it is one of cs and is not dropped. */
  lemma {:induction false} SurvivorsMembers(cs: seq<Cam>, activeCam: Cam?, x: Cam)
    ensures x in Survivors(cs, activeCam) <==> x in cs && !Dropped(x, activeCam)
    decreases |cs|
  {
    if cs != [] {
      SurvivorsMembers(cs[1..], activeCam, x);
      assert cs == [cs[0]] + cs[1..];
    }
  }

  /** Prune keeps the survivors in their order. */
  lemma {:induction false} SurvivorsKeepOrder(cs: seq<Cam>, activeCam: Cam?)
    ensures SubSeq(Survivors(cs, activeCam), cs)
    decreases |cs|
  {
    if cs != [] {
      SurvivorsKeepOrder(cs[1..], activeCam);
      var rest := Survivors(cs[1..], activeCam);
      if Dropped(cs[0], activeCam) {
        assert Survivors(cs, activeCam) == rest;
        SubSeqSkip(rest, cs);
      } else {
        assert Survivors(cs, activeCam) == [cs[0]] + rest;
        assert ([cs[0]] + rest)[1..] == rest;
      }
    }
  }

  /** Deleting the head of cs keeps a subsequence of its tail a subsequence. */
  lemma {:induction false} SubSeqSkip<T>(r: seq<T>, cs: seq<T>)
    requires cs != [] && SubSeq(r, cs[1..])
    ensures SubSeq(r, cs)
  {
  }

  /** Every element of a subsequence is an element of the sequence. */
  lemma {:induction false} SubSeqMembers<T>(r: seq<T>, cs: seq<T>, x: T)
    requires SubSeq(r, cs) && x in r
    ensures x in cs
    decreases |cs|
  {
    if r[0] == cs[0] && SubSeq(r[1..], cs[1..]) {
      if x != r[0] {
        assert x in r[1..];
        SubSeqMembers(r[1..], cs[1..], x);
      }
    } else {
      SubSeqMembers(r, cs[1..], x);
    }
  }

  /** A subsequence of distinct controllers is distinct. */
  lemma {:induction false} SubSeqDistinct(r: seq<Cam>, cs: seq<Cam>)
    requires SubSeq(r, cs) && DistinctCams(cs)
    ensures DistinctCams(r)
    decreases |cs|
  {
    if r != [] {
      assert DistinctCams(cs[1..]);
      if r[0] == cs[0] && SubSeq(r[1..], cs[1..]) {
        SubSeqDistinct(r[1..], cs[1..]);
        forall j | 0 < j < |r|
          ensures r[0] != r[j]
        {
          assert r[j] in r[1..];
          SubSeqMembers(r[1..], cs[1..], r[j]);
          var k :| 0 <= k < |cs[1..]| && cs[1..][k] == r[j];
          assert cs[k + 1] == r[j];
        }
        forall i, j | 0 < i < j < |r|
          ensures r[i] != r[j]
        {
          assert r[i] == r[1..][i - 1] && r[j] == r[1..][j - 1];
        }
      } else {
        SubSeqDistinct(r, cs[1..]);
      }
    }
  }

  /** Survivors distributes over concatenation. */
  lemma {:induction false} SurvivorsAppend(a: seq<Cam>, b: seq<Cam>, activeCam: Cam?)
    ensures Survivors(a + b, activeCam) == Survivors(a, activeCam) + Survivors(b, activeCam)
    decreases |a|
  {
    if a != [] {
      assert (a + b)[1..] == a[1..] + b;
      SurvivorsAppend(a[1..], b, activeCam);
    } else {
      assert a + b == b;
    }
  }

  /** Survivors of a prefix, one controller longer. */
  lemma SurvivorsStep(cs: seq<Cam>, activeCam: Cam?, i: int)
    requires 0 <= i < |cs|
    ensures Survivors(cs[..i + 1], activeCam) == Survivors(cs[..i], activeCam) + if Dropped(cs[i], activeCam) then [] else [cs[i]]
  {
    assert cs[..i + 1] == cs[..i] + [cs[i]];
    SurvivorsAppend(cs[..i], [cs[i]], activeCam);
  }

  /** Lines 87-97 of Prune: the controllers of cs that are kept, in order. */
  method FilterSurvivors(cs: seq<Cam>, activeCam: Cam?) returns (kept: seq<Cam>)
    ensures kept == Survivors(cs, activeCam)
  {
    kept := [];
    var i := 0;
    while i < |cs|
      invariant 0 <= i <= |cs|
      invariant kept == Survivors(cs[..i], activeCam)
    {
      SurvivorsStep(cs, activeCam, i);
      if !Dropped(cs[i], activeCam) {
        kept := kept + [cs[i]];
      }
      i := i + 1;
    }
    assert cs[..i] == cs;
  }

  datatype FieldChange = Spawned | Stayed | Retargeted | Returned(index: nat)

  /** The interpolators' states, newest first, after CheckFieldChange with this outcome. */
  function CheckedStates(lib: Lib, outcome: FieldChange, ss: seq<UnitState>): seq<UnitState>
  {
    match outcome
    case Spawned => [FreshUnitState] + ForwardedAfter(lib, ss, -1)
    case Stayed => ss
    case Retargeted => ss
    case Returned(j) => if j < |ss| then ForwardedAfter(lib, ss[j := Backwarded(lib, ss[j])], j) else ss
  }

  /** The controllers' fields, newest first, after CheckFieldChange with this outcome; `at` is the active controller's index. */
  function CheckedFields(outcome: FieldChange, fs: seq<FieldRef>, at: nat, currField: FieldRef): seq<FieldRef>
  {
    match outcome
    case Spawned => [currField] + fs
    case Retargeted => if at < |fs| then fs[at := currField] else fs
    case _ => fs
  }

  /** The static state of CamCtrl: latestCam's chain, activeCam and the minimap's initialised flag. */
  class CamStack {
    const chain: seq<Field>
    var cams: seq<Cam>
    var active: Cam?
    var minimapInitialized: bool

    ghost function CamSet(): set<Cam>
      reads this
    {
      set c | c in cams
    }

    /** The interpolators' states, newest first. */
    ghost function States(): seq<UnitState>
      reads this, CamSet()
    {
      seq(|cams|, k requires 0 <= k < |cams| reads this, CamSet() => cams[k].interp)
    }

    /** The controllers' fields, newest first. */
    ghost function Fields(): seq<FieldRef>
      reads this, CamSet()
    {
      seq(|cams|, k requires 0 <= k < |cams| reads this, CamSet() => cams[k].field)
    }

    ghost predicate Valid()
      reads this, CamSet()
    {
      && DistinctCams(cams)
      && (active == null || active in cams)
      && forall k :: 0 <= k < |cams| ==> ValidRef(chain, cams[k].field)
    }

    /** The statics before the first frame: no controller. */
    constructor(chain: seq<Field>)
      ensures Valid() && this.chain == chain && cams == [] && active == null && !minimapInitialized
    {
      this.chain := chain;
      cams := [];
      active := null;
      minimapInitialized := false;
    }

    /** IsInterpolating: latestCam exists and has a prev. */
    predicate IsInterpolating()
      reads this
    {
      |cams| >= 2
    }

    /** IsActive of controller c. */
    predicate IsActive(c: Cam)
      reads this
    {
      c == active
    }

    /** IsVanillaCamActive: no active controller, or a vanilla one. */
    predicate IsVanillaCamActive()
      reads this
    {
      active == null || active.camType == Vanilla
    }

    /** Cleanup: every controller deleted, none active and the minimap state uninitialised. */
    method Cleanup()
      modifies this`cams, this`active, this`minimapInitialized
      ensures Valid() && cams == [] && active == null && !minimapInitialized
      ensures !IsInterpolating() && IsVanillaCamActive()
    {
      minimapInitialized := false;
      cams := [];
      active := null;
    }

    /** Spawn: a new controller of SpawnType over field on top of the chain. */
    method Spawn(field: FieldRef, kuppaScript: bool, zoomedIn: bool)
      requires Valid() && ValidRef(chain, field)
      modifies this`cams
      ensures Valid() && active == old(active)
      ensures |cams| == |old(cams)| + 1 && cams[1..] == old(cams) && fresh(cams[0])
      ensures cams[0].camType == SpawnType(chain, field, kuppaScript, zoomedIn) && cams[0].field == field
      ensures States() == [FreshUnitState] + old(States()) && Fields() == [field] + old(Fields())
    {
      var c := new Cam(SpawnType(chain, field, kuppaScript, zoomedIn), field);
      cams := [c] + cams;
      assert cams[1..] == old(cams);
    }

    /** Activate: controller i becomes the active one and every older controller turns forward. */
    method Activate(lib: Lib, i: int)
      requires Valid() && 0 <= i < |cams|
      modifies this`active, CamSet()`interp
      ensures Valid() && cams == old(cams) && IsActive(cams[i])
      ensures forall k :: 0 <= k < |cams| && k != i ==> !IsActive(cams[k])
      ensures States() == ForwardedAfter(lib, old(States()), i) && Fields() == old(Fields())
    {
      active := cams[i];
      ForwardOlder(lib, i);
    }

    /** The loop of Activate (lines 34-37): every controller older than controller i turns forward. */
    method ForwardOlder(lib: Lib, i: int)
      requires Valid() && 0 <= i < |cams|
      modifies CamSet()`interp
      ensures Valid() && States() == ForwardedAfter(lib, old(States()), i) && Fields() == old(Fields())
    {
      ghost var before := States();
      ghost var target := ForwardedAfter(lib, before, i);
      var j := i + 1;
      while j < |cams|
        invariant i + 1 <= j <= |cams| && DistinctCams(cams)
        invariant forall k :: 0 <= k < |cams| ==> cams[k].interp == if i < k < j then target[k] else before[k]
      {
        assert cams[j].interp == before[j] && target[j] == Forwarded(lib, before[j]);
        label step:
        cams[j].SetDirectionForward(lib);
        forall k | 0 <= k < |cams| && k != j
          ensures cams[k].interp == old@step(cams[k].interp)
        {
          assert cams[k] != cams[j];
        }
        j := j + 1;
      }
      assert Fields() == old(Fields());
      assert States() == target;
    }

    /** Lines 46-47 and 68-69 of CheckFieldChange: a new controller, activated. */
    method Push(lib: Lib, field: FieldRef, kuppaScript: bool, zoomedIn: bool)
      requires Valid() && ValidRef(chain, field)
      modifies this`cams, this`active, CamSet()`interp
      ensures Valid() && |cams| == |old(cams)| + 1 && cams[1..] == old(cams) && fresh(cams[0]) && active == cams[0]
      ensures cams[0].camType == SpawnType(chain, field, kuppaScript, zoomedIn) && cams[0].field == field
      ensures States() == [FreshUnitState] + ForwardedAfter(lib, old(States()), -1) && Fields() == [field] + old(Fields())
      ensures IsInterpolating() <==> |old(cams)| >= 1
    {
      Spawn(field, kuppaScript, zoomedIn);
      ghost var spawned := States();
      Activate(lib, 0);
      assert States() == [FreshUnitState] + ForwardedAfter(lib, old(States()), -1) by {
        assert spawned == [FreshUnitState] + old(States());
        forall k | 0 <= k < |States()|
          ensures States()[k] == ([FreshUnitState] + ForwardedAfter(lib, old(States()), -1))[k]
        {
          if k > 0 {
            assert spawned[k] == old(States())[k - 1];
          }
        }
      }
    }

    /** The search of CheckFieldChange (lines 57-66) through the older controllers for an equivalent field. */
    method FindEquivalent(field: FieldRef) returns (j: int)
      requires Valid() && ValidRef(chain, field) && |cams| >= 1
      ensures j == FirstEquivalent(chain, Fields(), field, 1)
    {
      j := 1;
      while j < |cams|
        invariant 1 <= j <= |cams|
        invariant FirstEquivalent(chain, Fields(), field, j) == FirstEquivalent(chain, Fields(), field, 1)
      {
        if IsTrivialEquivalent(chain, cams[j].field, field) {
          return;
        }
        j := j + 1;
      }
      return NOT_FOUND;
    }

    /** Lines 61-62 of CheckFieldChange: controller j turns backward and becomes active. */
    method ReturnTo(lib: Lib, j: int)
      requires Valid() && 1 <= j < |cams|
      modifies this`active, CamSet()`interp
      ensures Valid() && cams == old(cams) && active == cams[j] && Fields() == old(Fields())
      ensures States() == ForwardedAfter(lib, old(States())[j := Backwarded(lib, old(States())[j])], j)
    {
      cams[j].interp := Backwarded(lib, cams[j].interp);
      ghost var turned := States();
      assert turned == old(States())[j := Backwarded(lib, old(States())[j])];
      Activate(lib, j);
    }

    /** Line 54 of CheckFieldChange: the active controller tries the new field. */
    method Retarget(field: FieldRef, sameAltitudeVector: bool) returns (changed: bool)
      requires Valid() && ValidRef(chain, field) && active != null
      modifies active`field
      ensures Valid() && States() == old(States())
      ensures changed == CanChangeField(chain, active.camType, field, sameAltitudeVector)
      ensures Fields() == if changed then old(Fields())[IndexOf(cams, active) := field] else old(Fields())
    {
      changed := active.TryChangeField(chain, field, sameAltitudeVector);
      assert forall k :: 0 <= k < |cams| && k != IndexOf(cams, active) ==> cams[k] != active;
    }

    /**
     * CheckFieldChange: with no active controller a new one is pushed; else
     * nothing happens when the active field is trivially equivalent to the
     * player's or the active controller can take it; else the first older
     * controller with an equivalent field turns backward and becomes active,
     * and only without one is a new controller pushed.
     */
    method CheckFieldChange(lib: Lib, currField: FieldRef, kuppaScript: bool, zoomedIn: bool, sameAltitudeVector: bool)
      returns (outcome: FieldChange)
      requires Valid() && ValidRef(chain, currField)
      modifies this`cams, this`active, CamSet()`interp, CamSet()`field
      ensures Valid() && active != null && active in cams && ValidRef(chain, active.field)
      ensures IsTrivialEquivalent(chain, active.field, currField)
      ensures old(active) == null ==> outcome == Spawned
      ensures old(active) != null ==>
                outcome == if IsTrivialEquivalent(chain, old(Fields())[IndexOf(old(cams), old(active))], currField) then Stayed
                           else if CanChangeField(chain, old(active).camType, currField, sameAltitudeVector) then Retargeted
                           else var j := FirstEquivalent(chain, old(Fields()), currField, 1);
                             if j == NOT_FOUND then Spawned else Returned(j)
      ensures outcome.Spawned? ==>
                |cams| == |old(cams)| + 1 && cams[1..] == old(cams) && fresh(cams[0]) && active == cams[0]
                && cams[0].camType == SpawnType(chain, currField, kuppaScript, zoomedIn)
      ensures outcome.Stayed? || outcome.Retargeted? ==> cams == old(cams) && active == old(active)
      ensures outcome.Returned? ==> cams == old(cams) && 1 <= outcome.index < |cams| && active == cams[outcome.index]
      // the controllers' states and fields, newest first, by outcome
      ensures States() == CheckedStates(lib, outcome, old(States()))
      ensures Fields() == CheckedFields(outcome, old(Fields()), old(if active == null then 0 else IndexOf(cams, active)), currField)
    {
      ghost var states0, fields0 := States(), Fields();
      if active == null {
        Push(lib, currField, kuppaScript, zoomedIn);
        assert States() == CheckedStates(lib, Spawned, states0);
        assert Fields() == CheckedFields(Spawned, fields0, 0, currField);
        return Spawned;
      }
      ghost var at := IndexOf(cams, active);
      assert Fields()[at] == active.field;
      if IsTrivialEquivalent(chain, active.field, currField) {
        return Stayed;
      }
      var changed := Retarget(currField, sameAltitudeVector);
      if changed {
        assert Fields()[at] == currField;
        assert Fields() == CheckedFields(Retargeted, fields0, at, currField);
        return Retargeted;
      }
      outcome := ReturnOrPush(lib, currField, kuppaScript, zoomedIn);
    }

    /**
     * Lines 57-69 of CheckFieldChange: the first older controller with an
     * equivalent field turns backward and becomes active; without one, a
     * new controller is pushed.
     */
    method ReturnOrPush(lib: Lib, currField: FieldRef, kuppaScript: bool, zoomedIn: bool) returns (outcome: FieldChange)
      requires Valid() && ValidRef(chain, currField) && |cams| >= 1
      modifies this`cams, this`active, CamSet()`interp
      ensures Valid() && active != null && active in cams && ValidRef(chain, active.field)
      ensures IsTrivialEquivalent(chain, active.field, currField)
      ensures var j := FirstEquivalent(chain, old(Fields()), currField, 1);
              outcome == if j == NOT_FOUND then Spawned else Returned(j)
      ensures outcome.Spawned? ==>
                |cams| == |old(cams)| + 1 && cams[1..] == old(cams) && fresh(cams[0]) && active == cams[0]
                && cams[0].camType == SpawnType(chain, currField, kuppaScript, zoomedIn)
      ensures outcome.Returned? ==> cams == old(cams) && 1 <= outcome.index < |cams| && active == cams[outcome.index]
      ensures States() == CheckedStates(lib, outcome, old(States()))
      ensures Fields() == CheckedFields(outcome, old(Fields()), 0, currField)
    {
      var j := FindEquivalent(currField);
      if j == NOT_FOUND {
        Push(lib, currField, kuppaScript, zoomedIn);
        return Spawned;
      }
      ReturnTo(lib, j);
      assert Fields()[j] == cams[j].field;
      return Returned(j);
    }

    /**
     * Prune: once the active controller's interp is finished, every newer
     * controller is deleted; then every inactive controller whose interp
     * has finished going forward is deleted.
     */
    method Prune()
      requires Valid() && active != null
      modifies this`cams
      ensures Valid() && active == old(active) && active in cams
      ensures cams == Survivors(if Finished(active.interp) then old(cams)[IndexOf(old(cams), active)..] else old(cams), active)
      ensures Finished(active.interp) ==> cams[0] == active
    {
      if Finished(active.interp) {
        Trim();
      }
      var kept := FilterSurvivors(cams, active);
      SurvivorsKeepOrder(cams, active);
      SubSeqDistinct(kept, cams);
      SurvivorsMembers(cams, active, active);
      forall k | 0 <= k < |kept|
        ensures ValidRef(chain, kept[k].field)
      {
        SubSeqMembers(kept, cams, kept[k]);
      }
      cams := kept;
    }

    /** Lines 75-85 of Prune: the controllers newer than the active one are deleted. */
    method Trim()
      requires Valid() && active != null
      modifies this`cams
      ensures Valid() && active == old(active)
      ensures cams == old(cams)[IndexOf(old(cams), active)..] && cams[0] == active
    {
      var i := 0;
      while cams[i] != active
        invariant 0 <= i <= IndexOf(cams, active)
        decreases IndexOf(cams, active) - i
      {
        i := i + 1;
      }
      cams := cams[i..];
      assert DistinctCams(cams) by {
        assert forall a, b :: 0 <= a < b < |cams| ==> cams[a] == old(cams)[a + i] && cams[b] == old(cams)[b + i];
      }
    }

    /**
     * The bookkeeping that opens Update (lines 180-181): CheckFieldChange,
     * then Prune.  `checked` is the chain CheckFieldChange leaves: its
     * outcome, its active controller and its controllers' states and fields
     * are CheckFieldChange's, and the chain that remains is Prune's
     * survivors of it.  Afterwards there is a latest controller, the active
     * one is on the chain, and it sits on a field trivially equivalent to
     * the player's.
     */
    method UpdateStack(lib: Lib, currField: FieldRef, kuppaScript: bool, zoomedIn: bool, sameAltitudeVector: bool)
      returns (outcome: FieldChange, ghost checked: seq<Cam>)
      requires Valid() && ValidRef(chain, currField)
      modifies this`cams, this`active, CamSet()`interp, CamSet()`field
      ensures Valid() && |cams| >= 1 && active != null && active in cams
      ensures IsTrivialEquivalent(chain, active.field, currField)
      ensures old(active) == null ==> outcome == Spawned
      ensures old(active) != null ==>
                outcome == if IsTrivialEquivalent(chain, old(Fields())[IndexOf(old(cams), old(active))], currField) then Stayed
                           else if CanChangeField(chain, old(active).camType, currField, sameAltitudeVector) then Retargeted
                           else var j := FirstEquivalent(chain, old(Fields()), currField, 1);
                             if j == NOT_FOUND then Spawned else Returned(j)
      ensures outcome.Spawned? ==>
                |checked| == |old(cams)| + 1 && checked[1..] == old(cams) && fresh(checked[0]) && active == checked[0]
                && checked[0].camType == SpawnType(chain, currField, kuppaScript, zoomedIn)
      ensures !outcome.Spawned? ==> checked == old(cams)
      ensures outcome.Stayed? || outcome.Retargeted? ==> active == old(active)
      ensures outcome.Returned? ==> 1 <= outcome.index < |checked| && active == checked[outcome.index]
      ensures forall k :: 0 <= k < |checked| ==>
                checked[k].interp == CheckedStates(lib, outcome, old(States()))[k]
                && checked[k].field == CheckedFields(outcome, old(Fields()), old(if active == null then 0 else IndexOf(cams, active)), currField)[k]
      ensures cams == Survivors(if Finished(active.interp) then checked[IndexOf(checked, active)..] else checked, active)
      ensures Finished(active.interp) ==> cams[0] == active
    {
      outcome := CheckFieldChange(lib, currField, kuppaScript, zoomedIn, sameAltitudeVector);
      checked := cams;
      ghost var states := States();
      ghost var fields := Fields();
      Prune();
      assert forall k :: 0 <= k < |checked| ==> checked[k].interp == states[k] && checked[k].field == fields[k];
    }

    /** GetTransformForInterp: a controller whose transform is invalid stops being the active one. */
    method ReportTransform(c: Cam, valid: bool)
      requires Valid()
      modifies this`active
      ensures Valid() && cams == old(cams)
      ensures active == if !valid && c == old(active) then null else old(active)
      ensures !valid && c == old(active) ==> IsVanillaCamActive()
    {
      if !valid && c == active {
        active := null;
      }
    }
  }
}
