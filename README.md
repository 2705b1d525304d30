# Gravity64DS core, modelled in Dafny

Gravity64DS gives every actor of a Nintendo DS platformer its own local
gravity. "Gravity fields" are authored as level paths. Each field has a
shape and a priority. An actor is in the first field of the priority-sorted
chain that contains it. Among later fields of the same priority, one with a
strictly lower altitude wins.

Each actor carries an orientation state machine, `ActorExtension`. It decides:
- when to re-resolve its field;
- which field's actor ring it belongs to;
- how the transition budget `angleToNewField` shrinks;
- when its basis is rebuilt.

Around the actor whose behaviour runs, other actors' positions and angles are
converted into its frame, then restored bit for bit. The camera controller
keeps a stack of cameras with one active camera. It pushes, returns to and
prunes cameras as the player's field changes.

This project models the decision logic and the data-structure logic of that
core. The fixed-point geometry underneath is left abstract:
- Library numerics are fields of a `Lib` value of function values: Fix12 and
  Fix24 products, `DivQ24`, `LenVec3`, `Normalized`, `Atan2`, `Sqrt`,
  `SmoothStep`, `RotateAround`, `SphericalForwardField` and matrix products.
- The only laws assumed about them are named predicates in `FixedMath`:
  - `FixProduct`: a product is commutative and exact for factors 0, 1 and -1;
  - `LengthLaws`: a length is never negative and the zero vector has length 0;
  - `RotationLaws`: rotating a point about itself leaves it in place.
  Each lemma requires only the laws it uses.

Modules follow the source files:

| module | source | form |
|---|---|---|
| `FixedMath` | include/gravity_math.h, source/gravity_math.cpp | functions and lemmas; `IterateSmoothStep` is a loop |
| `Interp` | `Sqaerp`, `SmoothInterp`, `UnitSmoothInterp` | classes with fields updated in place |
| `Sorting` | `InsertionSort` | in-place insertion sort on an `array` |
| `ProxyEval` | the `Proxy` expression templates | an explicit vector memory that `Eval` writes into |
| `GravityFields` | include/gravity_field.h, include/gravity_fields/*.h, `FieldImpl` | a `Shape` datatype with its fallbacks |
| `FieldIndex` | `FieldGenerator`, `GravityFieldList::Fill`, `GetFieldAt`, `GetFieldFor` | classes and loops proved against functions |
| `ActorRing` | `ActorList` / `Node` | `next`/`prev`/`last` arrays over node indices, with a ghost ring order per list |
| `GravityActors` | `ActorExtension`, `Property::Set`, `UpdateGravity`, the behaviour hooks | a `World` of slots |
| `CamControl` | `CamCtrl` statics: `latestCam` chain, `activeCam` | a `CamStack` class over a sequence of `Cam` objects, newest first |
| `PlanetCamera` | settings lookup and blending, `ManualResetHandler` timer, `Ratio` / `MinimizeRatios` | classes, functions and an in-place array loop |

Fixed-point values are `int`. Where the source stores a result in a `short`
or `u16`, the wrap-around is written out (`WrapS16`, `U16`). So is the 32-bit
arithmetic of the Q12/Q24 conversions (`Wrap32`). C++ integer division, which
truncates toward zero, is `TruncDiv`.

## Model

| member | source | states |
|---|---|---|
| FixedMath.WrapS16 | include/gravity_math.h:560-563 | the stored short is congruent to the value mod 2^16 and equals it when it is in range |
| FixedMath.Wrap32 | include/gravity_math.h:22 | the 32-bit result is congruent mod 2^32 and equals the value when it is in range |
| FixedMath.Q24ToQ12 | include/gravity_math.h:22 | without overflow of the `+ 0x800`, the result is the nearest Q12 value: v lies within half a Q12 unit of r·0x1000, halves rounding up |
| FixedMath.Q12RoundTrip | include/gravity_math.h:22 | a Q12 value lifted by `<< 12` and converted back is unchanged when the shift does not overflow |
| FixedMath.VectorRoundTrip | include/gravity_math.h:239 | `Vector3_Q24(v).ToQ12() == v` for every vector whose components fit in Q24 |
| FixedMath.AngleTo | include/gravity_math.h:379-382 | the angle between two vectors is an unsigned 16-bit angle in [0, 0x10000) |
| FixedMath.DotSymmetric | source/gravity_math.cpp:18-23 | with a commutative product, `CalculateDot(a, b) == CalculateDot(b, a)` |
| FixedMath.CrossAntiSymmetric | source/gravity_math.cpp:25-37 | with a commutative product, `CalculateCross(a, b) == -CalculateCross(b, a)` |
| FixedMath.CrossSelfZero | source/gravity_math.cpp:25-37 | with a commutative product, `CalculateCross(a, a)` is the zero vector |
| FixedMath.SphericalMatrixField | include/gravity_math.h:532-541 | the basis's up column is the up vector normalised twice |
| FixedMath.ConvertAngle | include/gravity_math.h:554-563 | the new angle is the old one plus `GetAngleOffset(from.c2, to.c0, to.c2)` mod 2^16; the bases are inputs only |
| FixedMath.CosZero | source/gravity_math.cpp:81-99 | `CosQ24(0)` is exactly 1.0 in Q24 |
| FixedMath.CosEven | source/gravity_math.cpp:83-84 | `CosQ24(a) == CosQ24(-a)` for every short a except -0x8000 |
| FixedMath.CosSupplement | source/gravity_math.cpp:88-98 | `CosQ24(a) == -CosQ24(0x8000 - a)` for 0x4000 < a <= 0x7fff |
| FixedMath.OrthoCandidate | source/gravity_math.cpp:121-144 | the candidate before normalisation has integer dot product exactly 0 with v; it is one of the three swapped-and-negated forms |
| FixedMath.OrthoZeroed | source/gravity_math.cpp:123-143 | the zeroed component is one whose square is minimal among the three |
| FixedMath.SetMaxAngleToNormalized | source/gravity_math.cpp:39-47 | a vector already within the angle of j (cosine below the dot product) is returned unchanged |
| FixedMath.IterateSmoothStep | include/gravity_math.h:522-528 | the loop returns the smooth step applied exactly n times |
| Interp.NextVel | source/gravity_math.cpp:55-60 | accelerating stores vel - accel mod 2^16; braking never yields a positive velocity |
| Interp.SqaerpStep | source/gravity_math.cpp:49-74 | a non-positive acceleration is a no-op returning 0. The returned angle is never negative and, absent wrap-around, at most min(AngleTo, maxAngle). A zero result is an exact snap onto the target with velocity 0. Otherwise v is set, through `SetMaxAngleToNormalized`, to the remaining angle from the target |
| Interp.SqaerpVelocityNonPositive | source/gravity_math.cpp:54-70 | from a non-positive velocity, with acceleration <= 0x2000 and maxAngle <= 180 degrees, the velocity stays non-positive |
| Interp.SqaerpAngleInRange | source/gravity_math.cpp:54-70 | under the same bounds, the returned angle lies in [0, min(v.AngleTo(target), maxAngle)] |
| Interp.SqaerpVelocityWrapExample | source/gravity_math.cpp:58 | without the bound the short wraps: velocity -20000 with acceleration 20000 becomes +25536 |
| Interp.Sqaerp.constructor | include/gravity_math.h:572 | a fresh controller has angular velocity 0 |
| Interp.Sqaerp.Copy | include/gravity_math.h:572 | a copy has the same angular velocity |
| Interp.Sqaerp.Reset | include/gravity_math.h:577 | the velocity is 0 afterwards |
| Interp.Sqaerp.Apply | source/gravity_math.cpp:49-74 | the new velocity, vector and result are those of `SqaerpStep`; within the bounds above it keeps the velocity non-positive |
| Interp.ApproachLinear | include/gravity_math.h:669 | the result stays between x and the target, and equals the target exactly when it is within one step |
| Interp.CurveEnds | include/gravity_math.h:650-653 | `GetValue` is h + h1 at t = 0 and the target h1 at t = 1 |
| Interp.SpeedEnds | include/gravity_math.h:655-658 | `GetSpeed` is k at t = 0 and 0 at t = 1 |
| Interp.CurveConstant | include/gravity_math.h:646 | after `Init(val)` the curve is val at every t |
| Interp.SmoothInterp.InitCurve | include/gravity_math.h:637-643 | the curve runs from start to end with initial speed `speed`, t = 0 |
| Interp.SmoothInterp.Init | include/gravity_math.h:646 | value and target are val, and the value stays val whatever t becomes |
| Interp.SmoothInterp.constructor | include/gravity_math.h:647 | as `Init(val)` |
| Interp.SmoothInterp.SetTarget | include/gravity_math.h:662-665 | the target becomes val and t becomes 0; the new curve starts at the old value with the old speed (h = value - val, k = speed), so neither jumps |
| Interp.SmoothInterp.Advance | include/gravity_math.h:667-670 | t approaches 1 by deltaTime; the curve is unchanged |
| Interp.UnitValueFinished | include/gravity_math.h:682-688 | at t == end the value is 1 going forward and 0 going backward |
| Interp.UnitValueStart | include/gravity_math.h:676-688 | a fresh interpolator starts going forward at value 0 |
| Interp.Switched | include/gravity_math.h:690-700 | switching restarts at t = 0 facing the other way |
| Interp.DirectionSettersIdempotent | include/gravity_math.h:705-715 | each setter establishes its direction, is a no-op when it already holds, and is idempotent |
| Interp.UnitSmoothInterp.constructor | include/gravity_math.h:676-679 | t = 0, end = 1, forward, leading coefficient 2 |
| Interp.UnitSmoothInterp.NextValue | include/gravity_math.h:682-688 | t approaches end by deltaTime, stored as a short; the other fields stay; the result is the curve value there |
| Interp.UnitSmoothInterp.SwitchDirection | include/gravity_math.h:690-700 | the new state is `Switched` of the old one: direction flipped, t = 0 |
| Interp.UnitSmoothInterp.SetDirectionForward | include/gravity_math.h:705-709 | afterwards the direction is forward; the state is `Forwarded` of the old one |
| Interp.UnitSmoothInterp.SetDirectionBackward | include/gravity_math.h:711-715 | afterwards the direction is backward; the state is `Backwarded` of the old one |
| Sorting.InsertionSort | include/gravity_math.h:580-597 | the array ends up as the insertion-sort sequence of its old contents; an empty array is untouched |
| Sorting.InsertAt | include/gravity_math.h:589-595 | the inner loop inserts element i into the sorted prefix and leaves the rest of the array alone |
| Sorting.InsertBackLength | include/gravity_math.h:591-595 | insertion adds exactly one element |
| Sorting.InsertBackPermutes | include/gravity_math.h:591-595 | insertion adds x to the multiset of elements and nothing else |
| Sorting.InsertBackElements | include/gravity_math.h:591-595 | every element after insertion is x or was already there |
| Sorting.InsertBackSorted | include/gravity_math.h:591-595 | inserting into a sorted sequence keeps it sorted |
| Sorting.InsertBackStable | include/gravity_math.h:591-595 | insertion keeps the order within every key, with x last among its key |
| Sorting.InsertBackStep | include/gravity_math.h:593-594 | one swap of the inner loop is one step of the insertion |
| Sorting.SortSeqPermutes | include/gravity_math.h:580-597 | the sorted sequence is a permutation of the input |
| Sorting.SortSeqSorted | include/gravity_math.h:580-597 | no element of the result is cmp-less than its predecessor |
| Sorting.SortSeqStable | include/gravity_math.h:580-597 | cmp-equal elements keep their input order |
| GravityFields.DefaultField | include/gravity_field.h:27-32 | priority -1, camera settings 0xff, homogeneous and trivial |
| GravityFields.PathField | include/gravity_field.h:34-39 | priority from param2 and camera settings from param3; homogeneous iff the shape supplies an up vector, trivial iff it derives from `TrivialField` |
| GravityFields.FirstFieldMatrix | source/gravity_field.cpp:372-392 | trivial fields give the identity; other fields give a basis whose up column is their up vector at pos, normalised twice |
| GravityFields.ContainsIsContainsAtAltitude | source/gravity_field.cpp:135-144 | for every shape, `Contains(pos) == Contains(pos, GetAltitude(pos))` |
| GravityFields.PositionOnlyIgnoresAltitude | source/gravity_field.cpp:146-152 | a position-only shape ignores the altitude argument |
| GravityFields.AltitudeIsLength | source/gravity_field.cpp:123-133 | an altitude-vector shape's altitude is the length of that vector |
| GravityFields.AltitudeVectorFromAltitude | source/gravity_field.cpp:67-83 | an altitude shape's altitude vector is its up vector scaled by its altitude |
| GravityFields.AltitudeAndUpVectorAgree | source/gravity_field.cpp:85-113 | the combined query returns `GetAltitude`, and the Q24 up vector wherever the up vector is constant |
| GravityFields.HomogeneousUpVector | source/gravity_field.cpp:115-121 | the homogeneous up vector exists exactly for homogeneous shapes, and is then the up vector at every position in Q12 and in Q24 |
| GravityFields.TrivialUpVector | include/gravity_fields/trivial_field.h:7-13 | the up vector is (0, 1, 0) at every position |
| GravityFields.TrivialAltitude | include/gravity_fields/trivial_field.h:15-18 | altitude is pos.y + 30000.0; it ignores x and z and grows strictly with y |
| GravityFields.MakeTrivialCylinder | include/gravity_fields/trivial_cylinder_field.h:13-19 | bottom is node0, height is \|node1.y - node0.y\| >= 0, radius is the horizontal distance of the nodes |
| GravityFields.TrivialCylinderContains | include/gravity_fields/trivial_cylinder_field.h:21-26 | contained iff bottom.y <= pos.y <= bottom.y + height and within the horizontal radius; contained points lie between the bottom's altitude and that plus the height |
| GravityFields.TrivialCylinderBottomContained | include/gravity_fields/trivial_cylinder_field.h:13-26 | the bottom centre is always contained |
| GravityFields.RadialContains | include/gravity_fields/radial_field.h:17-25 | the altitude vector is pos - center; contained iff within `Dist(center, node1)`; `Contains(pos, alt)` iff alt <= radius, for any pos |
| GravityFields.RadialCenterContained | include/gravity_fields/radial_field.h:12-25 | the radius is non-negative and the centre has altitude 0 and is contained |
| GravityFields.AxialAltitudeVector | include/gravity_fields/axial_field.h:20-28 | beyond p1 the vector is pos - p1, before p0 it is pos - p0, otherwise the perpendicular part |
| GravityFields.AxialContains | include/gravity_fields/axial_field.h:14-33 | contained iff the capsule altitude vector is at most the radius, end caps included; the axis is `Normalized(p1 - p0)` |
| GravityFields.AxialStartContained | include/gravity_fields/axial_field.h:14-28 | unless p0 lies beyond p1 along the axis, p0 has altitude vector 0, altitude 0, and is inside iff the radius is non-negative |
| GravityFields.HomCylinderUpVector | include/gravity_fields/homogeneous_cylinder_field.h:29-37 | the up vector is `Normalized(node1 - node0)` everywhere, and altitude is up·(pos - p0) |
| GravityFields.HomCylinderContains | include/gravity_fields/homogeneous_cylinder_field.h:39-43 | contained iff 0 <= altitude <= `Dist(p0, p1)` and the distance to the axis is within `DistToAxis(node2)` |
| GravityFields.DistToAxisAtStart | include/gravity_fields/homogeneous_cylinder_field.h:13-18 | p0 is at distance 0 from the axis |
| GravityFields.HomCylinderStartContained | include/gravity_fields/homogeneous_cylinder_field.h:21-37 | p0 has altitude 0 and is contained |
| FieldIndex.AxialSegments | source/gravity_field.cpp:214-225 | one axial segment per pair of consecutive points, all with the given radius |
| FieldIndex.GenerateFields | source/gravity_field.cpp:202-236 | each generated shape is wrapped with the path's parameters, in spawn order |
| FieldIndex.GenerateCases | source/gravity_field.cpp:202-236 | fewer than 2 nodes: nothing. Code 0 with 2 nodes: one radial field. Code 0 with N >= 3 nodes: N-2 axial fields over nodes 0..N-2 with radius `Dist(node N-1, node N-2)`. Code 1: a field iff N >= 3. Code 2: one trivial cylinder. Any other code: nothing |
| FieldIndex.AxialRun | source/gravity_field.cpp:218-225 | field i of the run joins nodes i and i+1 with the shared radius |
| FieldIndex.AxialFields | source/gravity_field.cpp:214-225 | a code-0 path of N >= 3 nodes generates exactly its N-2 axial run |
| FieldIndex.GeneratePriority | include/gravity_field.h:34-39 | every generated field has the path's priority, which is never negative |
| FieldIndex.FieldsSizeZero | source/gravity_field.cpp:267 | with positive class sizes, a path needs space iff it generates a field |
| FieldIndex.FieldGenerator.constructor | source/gravity_field.cpp:264 | the counter starts at `start` and nothing is linked |
| FieldIndex.FieldGenerator.Spawn | source/gravity_field.cpp:185-200 | the counter grows by the field's size; the field is linked only when linking |
| FieldIndex.FieldGenerator.Generate | source/gravity_field.cpp:202-236 | the counter grows by the total size of the path's fields, which are linked in order when linking |
| FieldIndex.FieldGenerator.SpawnSingle | source/gravity_field.cpp:228-234 | the same, for a path with one shape |
| FieldIndex.FieldGenerator.SpawnSegments | source/gravity_field.cpp:218-225 | the loop spawns the axial run and counts its size |
| FieldIndex.NothingGenerated | source/gravity_field.cpp:204-235 | short paths, code 1 with fewer than 3 nodes and unknown codes generate nothing, of size 0 |
| FieldIndex.AxialGenerated | source/gravity_field.cpp:213-226 | a code-0 path's fields and size are those of its axial run |
| FieldIndex.SingleShape | source/gravity_field.cpp:209-234 | a one-shape path generates that field, of that shape's size |
| FieldIndex.Kept | source/gravity_field.cpp:259-272 | every kept path is a path of the level with param1 >= 0x40 that generates something |
| FieldIndex.FlattenSizeInsert | source/gravity_field.cpp:277-286 | inserting a path into the sorted order adds exactly its fields' size |
| FieldIndex.FlattenSizeSorted | source/gravity_field.cpp:277-286 | sorting does not change the total size: the sizing pass counts exactly what the construction pass consumes |
| FieldIndex.FlattenSortedPriorities | source/gravity_field.cpp:277-286 | paths sorted by descending param2 give a chain of non-increasing priority |
| FieldIndex.FillChainPermutes | source/gravity_field.cpp:277-280 | the sorted paths are a permutation of the kept paths, ordered by descending param2 |
| FieldIndex.FillChainStable | source/gravity_field.cpp:277-280 | paths of equal priority keep their authoring order |
| FieldIndex.FillChainSorted | source/gravity_field.cpp:277-286 | priorities never increase along the chain |
| FieldIndex.KeptArePathGravityFields | source/gravity_field.cpp:411-416 | every kept path satisfies `IsPathGravityField` and has param1 in 0x40..0x42 |
| FieldIndex.GravityFieldList.constructor | source/gravity_field.cpp:243-244 | no arena and an empty chain |
| FieldIndex.GravityFieldList.Fill | source/gravity_field.cpp:247-287 | nothing changes when already filled, before the level is loaded, or without generating paths. Otherwise the chain is the kept paths' fields, stably sorted by descending priority, in an arena of exactly their size |
| FieldIndex.GravityFieldList.SizingPass | source/gravity_field.cpp:257-272 | returns the kept paths in authoring order and the bytes their fields need |
| FieldIndex.GravityFieldList.ConstructionPass | source/gravity_field.cpp:283-286 | links the fields of the sorted paths in order |
| FieldIndex.GravityFieldList.Clear | source/gravity_field.cpp:311 | the arena is released and the chain is empty |
| FieldIndex.TrivialEquivalence | include/gravity_field.h:104-108 | `IsTrivialEquivalent` is reflexive, symmetric and transitive |
| FieldIndex.NonTrivialEquivalentOnlyToItself | include/gravity_field.h:105-108 | a non-trivial field is equivalent to itself only |
| FieldIndex.FirstInside | source/gravity_field.cpp:332-342 | the first containing field from an index on, or none exactly when no later field contains pos |
| FieldIndex.RunEnd | source/gravity_field.cpp:348 | the end of the maximal run of one priority |
| FieldIndex.LowestSelects | source/gravity_field.cpp:344-359 | the second loop picks a containing field of the run of minimal altitude, the earliest on a tie |
| FieldIndex.SelectDefault | source/gravity_field.cpp:328-360 | the default field is selected exactly when no field contains pos |
| FieldIndex.FieldAtValid | source/gravity_field.cpp:328-360 | `GetFieldAt` always returns the default field or a field of the chain |
| FieldIndex.FieldAtDefault | source/gravity_field.cpp:332-337 | `GetFieldAt` returns the default field exactly when no chained field contains pos |
| FieldIndex.SelectSelects | source/gravity_field.cpp:328-360 | from the first containing field, the result contains pos, is in its priority run, has minimal altitude there, and is the earliest on a tie |
| FieldIndex.FieldAtSelects | source/gravity_field.cpp:328-360 | the same for `GetFieldAt` over the chain: same priority as the first containing field, minimal altitude, ties to the earlier field |
| FieldIndex.FieldAtTopPriority | source/gravity_field.cpp:330-331 | in a sorted chain, that run holds every containing field of the top priority |
| FieldIndex.FieldForCases | source/gravity_field.cpp:320-326 | the default field for actors bound to it, else `GetFieldAt` at the actor's position |
| FieldIndex.GetFieldAt | source/gravity_field.cpp:328-360 | the two loops compute `FieldAt`, a valid field reference |
| FieldIndex.GetFieldFor | source/gravity_field.cpp:320-326 | computes `FieldFor`, a valid field reference |
| FieldIndex.LowestInRun | source/gravity_field.cpp:344-359 | the running-minimum loop computes `Lowest` from the first containing field |
| ActorRing.RingInsert | source/gravity_actor_list.cpp:59-64 | the link writes of `Insert` give a valid ring with the node appended as `last`, a self-loop on an empty list |
| ActorRing.RemoveNextOk | source/gravity_actor_list.cpp:79 | after `prev.next = next`, `next` still leads round the shorter ring |
| ActorRing.RemovePrevOk | source/gravity_actor_list.cpp:80 | after `next.prev = prev`, `prev` still leads back round it |
| ActorRing.RingRemove | source/gravity_actor_list.cpp:66-81 | `Remove`'s surgery gives a valid ring without the node, keeping the others' cyclic order. `last` moves to its predecessor or to null only if the node was last |
| ActorRing.AfterProps | include/gravity_actor_list.h:72-79 | the other members are the ring from `n.next` round to just before n, so n is never among them |
| ActorRing.AfterDistinct | include/gravity_actor_list.h:59-79 | each other member is visited once |
| ActorRing.RingsInsert | source/gravity_actor_list.cpp:59-64 | the surgery on one list keeps every list valid and disjoint |
| ActorRing.RingsRemove | source/gravity_actor_list.cpp:66-81 | the same for `Remove` |
| ActorRing.ActorLists.constructor | include/gravity_actor_list.h:85 | every list starts empty, `last == nullptr` |
| ActorRing.ActorLists.GetNextOfNewNode | source/gravity_actor_list.cpp:40-47 | the old first node, whose prev now is the new node; the node itself on an empty list |
| ActorRing.ActorLists.GetPrevOfNewNode | source/gravity_actor_list.cpp:49-56 | the old last node, whose next now is the new node; the node itself on an empty list |
| ActorRing.ActorLists.Insert | source/gravity_actor_list.cpp:58-64 | the lists stay valid, the node is appended to list i, and `last` becomes the node |
| ActorRing.ActorLists.Remove | source/gravity_actor_list.cpp:66-81 | the node leaves list i, the others keep their order, and the list shrinks by one. `last` moves to the predecessor if the node was last, or to null if it was alone. So removing every inserted node leaves `last == nullptr` |
| ActorRing.ActorLists.Splice | source/gravity_actor_list.cpp:79-80 | exactly the two link writes |
| ActorRing.ActorLists.OtherNodes | include/gravity_actor_list.h:44 | the range yields each other member once in ring order, never the node itself; a one-member ring yields nothing |
| ActorRing.ActorLists.Walk | include/gravity_actor_list.h:59-69 | following `next` from the node visits the ring after it |
| GravityActors.ConvertersFixPivot | include/gravity_actor_extension.h:22-36 | both converters leave the pivot in place |
| GravityActors.RestoreUndoesConvert | include/gravity_actor_extension.h:74-82 | a value still equal to `transformed` is restored to `original` bit for bit |
| GravityActors.RestoreAfterChange | include/gravity_actor_extension.h:74-82 | a changed value is reverse-converted |
| GravityActors.ConvertAll | include/gravity_actor_extension.h:58-65 | every property stores its old value as original and its converted value as transformed |
| GravityActors.RestoreAllUndoesConvertAll | include/gravity_actor_extension.h:58-82 | convert then restore with nothing changed in between returns all four values exactly, even with another restorer |
| GravityActors.PlainAll | include/gravity_actor_extension.h:51-56 | original == transformed == the current value, actor unchanged |
| GravityActors.InitAll | include/gravity_actor_extension.h:67-72 | the values and `transformed` stay; only the originals are reverse-converted |
| GravityActors.NewBasis | source/gravity_actor_extension.cpp:142-165 | the rebuilt basis has the new up axis |
| GravityActors.Decide | source/gravity_actor_extension.cpp:117-129 | the field after the decision is the default field or a field of the chain |
| GravityActors.Resolve | source/gravity_actor_extension.cpp:115-171 | likewise after the recompute |
| GravityActors.GravityStep | source/gravity_actor_extension.cpp:107-174 | likewise for the whole update |
| GravityActors.MoveStep | source/gravity_actor_extension.cpp:115-173 | likewise past the early return |
| GravityActors.GravityStepEarlyReturn | source/gravity_actor_extension.cpp:111-113 | a short move with no transition changes nothing; any other move records pos as `lastUpdatePoint` |
| GravityActors.GravityStepDefaultActor | source/gravity_actor_extension.cpp:115 | an actor bound to the default field never re-resolves; only `lastUpdatePoint` moves |
| GravityActors.GravityStepFieldChange | source/gravity_actor_extension.cpp:117-129 | the field changes iff the move is not short, the actor is not bound, and the found field has priority >= 0 and is another field; the new field is the one `GetFieldAt` found at the holding position |
| GravityActors.GravityStepNeverAdoptsDefault | source/gravity_actor_extension.cpp:119 | resolving to the default field never changes the field |
| GravityActors.GravityStepNoRecompute | source/gravity_actor_extension.cpp:131 | without a change, in a homogeneous field with no budget left, basis and angles are kept |
| GravityActors.UpStepBounds | source/gravity_actor_extension.cpp:92-97 | one up-vector step keeps the velocity non-positive and the angle within the budget |
| GravityActors.ReorientBudget | source/gravity_actor_extension.cpp:131-170 | the recompute keeps the bounds, never raises the budget and keeps the field |
| GravityActors.ReorientTrivialIdentity | source/gravity_actor_extension.cpp:138-139 | in a trivial field with no budget left the basis is exactly the identity |
| GravityActors.GravityStepBudget | source/gravity_actor_extension.cpp:107-174 | the budget stays within 180 degrees, the velocity non-positive, and without a change the budget never rises |
| GravityActors.GravityStepKeepsFrameOk | source/gravity_actor_extension.cpp:107-174 | `UpdateGravity` preserves the frame invariant |
| GravityActors.GravityStepTrivialIdentity | source/gravity_actor_extension.cpp:138-139 | "identity in a trivial field with no budget" is preserved |
| GravityActors.ReorientAngles | source/gravity_actor_extension.cpp:144-169 | both angles are converted from the old basis to the new one, except for the first-person player, whose angles and forward and side axes are kept |
| GravityActors.Actor.constructor | include/gravity_actor_extension.h:173-177 | an actor at pos with prevPos = pos, not held |
| GravityActors.Properties.constructor | include/gravity_actor_extension.h:51-56 | every pair holds the current value twice |
| GravityActors.ActorExtension.constructor | include/gravity_actor_extension.h:173-177 | identity basis, no budget, controller at rest |
| GravityActors.ActorExtension.CalculateUpVector | source/gravity_actor_extension.cpp:92-97 | one Sqaerp step from the current up axis towards the field's, capped by the budget |
| GravityActors.ActorExtension.PredictNextUpVector | include/gravity_actor_extension.h:166-170 | the same step on a copy; `fieldSqaerp` is unchanged |
| GravityActors.ActorExtension.Recompute | source/gravity_actor_extension.cpp:131-170 | the frame becomes `Reorient` of the old one |
| GravityActors.ActorExtension.SetProperties | include/gravity_actor_extension.h:155-158 | the actor and its pairs follow `ConvertAll` |
| GravityActors.ActorExtension.RestoreProperties | include/gravity_actor_extension.h:160-164 | the actor follows `RestoreAll`; the pairs stay |
| GravityActors.ActorExtension.Step | include/gravity_actor_extension.h:155-164 | set before the behaviour, restore after it |
| GravityActors.ActorExtension.InitBasis | include/gravity_actor_extension.h:176-177 | basis m, identity pushback basis, no budget, controller at rest |
| GravityActors.ActorExtension.InitProperties | include/gravity_actor_extension.h:179-184 | the pairs are stored plainly or through the Initializer, and `lastUpdatePoint == savedPos ==` the original pos |
| GravityActors.ListIndex | source/gravity_actor_list.cpp:25-31 | list 0 belongs to the default field, and only to it |
| GravityActors.MembershipMove | source/gravity_actor_extension.cpp:123-125 | moving a node between lists keeps "each list holds exactly the live actors of its field" |
| GravityActors.MembershipAdd | source/gravity_actor_list.cpp:25-31 | adding a new node to its field's list keeps membership |
| GravityActors.MembershipDrop | source/gravity_actor_list.cpp:34-37 | removing a node keeps membership |
| GravityActors.World.constructor | source/gravity_actor_list.cpp:25-37 | an empty world with one empty list per field |
| GravityActors.World.HoldingActor | source/gravity_actor_extension.cpp:99-105 | the player while held and a player exists, else the actor itself |
| GravityActors.World.Relink | source/gravity_actor_extension.cpp:123-125 | the node leaves its old list and joins the found field's, and its field becomes the found one |
| GravityActors.World.ChangeField | source/gravity_actor_extension.cpp:121-129 | field := found, `fieldSqaerp` reset, budget 0x8000; no other node changes field |
| GravityActors.World.RecomputeSlot | source/gravity_actor_extension.cpp:131-170 | the frame follows `Reorient` in the node's field |
| GravityActors.World.DecideField | source/gravity_actor_extension.cpp:117-129 | the frame follows `Decide`; `changed` tells whether the field moved |
| GravityActors.World.ResolveField | source/gravity_actor_extension.cpp:117-170 | the frame follows `Resolve` |
| GravityActors.World.FinishField | source/gravity_actor_extension.cpp:131-170 | the recompute runs iff the field changed, is inhomogeneous, or a transition is under way |
| GravityActors.World.UpdateAfterMove | source/gravity_actor_extension.cpp:115-173 | the frame follows `MoveStep` at the holding actor's position |
| GravityActors.World.MoveField | source/gravity_actor_extension.cpp:115-171 | bound actors keep their frame; the others follow `Resolve` |
| GravityActors.World.RecordUpdatePoint | source/gravity_actor_extension.cpp:173 | `lastUpdatePoint` := pos |
| GravityActors.World.UpdateGravity | source/gravity_actor_extension.cpp:107-174 | the frame follows `GravityStep` and keeps its bounds; the lists follow the field; no other node changes field |
| GravityActors.World.Spawn | include/gravity_actor_extension.h:172-185 | the node joins the list of `GetFieldFor(actor)` and the basis is that field's first matrix. The properties are stored plainly, or through the Initializer for a sub-actor spawned during another behaviour. `lastUpdatePoint == savedPos ==` the original pos |
| GravityActors.World.InitSlot | include/gravity_actor_extension.h:176-184 | the extension part of that, touching no list |
| GravityActors.World.Enroll | source/gravity_actor_list.cpp:25-31 | the node's field is `GetFieldFor`, and it is appended to that field's list |
| GravityActors.World.Destroy | source/gravity_actor_list.cpp:33-37 | the node leaves its list; the other lists are unchanged |
| GravityActors.World.RedirectDelta | source/gravity_actor_behavior.cpp:6-16 | a no-op when another actor is behaving or the actor is not transformed. Otherwise the move since savedPos is rotated by the basis and savedPos follows, so a second call leaves pos unchanged |
| GravityActors.World.ConvertOthers | source/gravity_actor_behavior.cpp:79-109 | targets get `SetProperties` or `RestoreProperties` into the pivot's frame; every other actor keeps its values |
| GravityActors.World.ConvertPlayer | source/gravity_actor_behavior.cpp:79-94 | for a non-player pivot only the player is converted, and nothing happens without a player |
| GravityActors.World.ConvertRing | source/gravity_actor_behavior.cpp:95-109 | for the player pivot, every other transformed member of its list is converted |
| GravityActors.World.ConvertEach | source/gravity_actor_behavior.cpp:97-108 | the loop converts each transformed other member once |
| GravityActors.World.ConvertOne | source/gravity_actor_behavior.cpp:97-99 | one target is converted if it is transformed; nothing else changes |
| GravityActors.World.Prepare | source/gravity_actor_behavior.cpp:63-73 | before the behaviour: `UpdateGravity`, then `shouldTransformOthers` = transformed, not in a trivial field and not held |
| GravityActors.World.TransformOthers | source/gravity_actor_behavior.cpp:75-109 | with the flag set, the redirect and the conversion of the others; without it nothing changes |
| GravityActors.World.RedirectAndConvert | source/gravity_actor_behavior.cpp:77-109 | the body of that branch |
| GravityActors.World.ProcessBefore | source/gravity_actor_behavior.cpp:59-110 | the before phase: gravity update, the new flag, redirect, conversion |
| GravityActors.World.BeforeBehavior | source/gravity_actor_behavior.cpp:28-40 | the slot becomes the behaving actor, then the before phase runs; the flag is returned for the after phase |
| GravityActors.World.AfterBehavior | source/gravity_actor_behavior.cpp:43-53 | only while an actor is behaving: the after phase with the same flag (restore, no gravity update); then no actor is behaving |
| CamControl.SpawnType | source/gravity_cam_ctrl.cpp:17-24 | the vanilla camera exactly for trivial fields |
| CamControl.SpawnTypePriority | source/gravity_cam_ctrl.cpp:17-24 | outside trivial fields, the Kuppa script gives the cutscene camera, then zooming in gives first person, otherwise the planet camera |
| CamControl.VanillaFirstPersonComplementary | include/gravity_cam_ctrl.h:62-65 | the vanilla camera (default rule) and the first-person camera accept complementary fields |
| CamControl.FirstEquivalent | source/gravity_cam_ctrl.cpp:57-66 | the first index from `from` whose field is trivially equivalent, or not found exactly when there is none |
| CamControl.ForwardedAfter | source/gravity_cam_ctrl.cpp:32-37 | keeps the number of states |
| CamControl.Cam.constructor | include/gravity_cam_ctrl.h:85-94 | the given type and field, with a fresh interpolator |
| CamControl.Cam.TryChangeField | include/gravity_cam_ctrl.h:67-76 | field := newField iff `CanChangeField`, and returns that result |
| CamControl.Cam.SetDirectionForward | source/gravity_cam_ctrl.cpp:36 | the interpolator is set forward |
| CamControl.SurvivorsMembers | source/gravity_cam_ctrl.cpp:87-97 | a camera survives iff it is on the chain and is not (inactive and finished going forward) |
| CamControl.SurvivorsKeepOrder | source/gravity_cam_ctrl.cpp:87-97 | the survivors are a subsequence of the chain |
| CamControl.FilterSurvivors | source/gravity_cam_ctrl.cpp:87-97 | the loop computes the survivors |
| CamControl.CamStack.constructor | source/gravity_cam_ctrl.cpp:7-8 | no camera, none active, minimap uninitialised |
| CamControl.CamStack.Cleanup | include/gravity_cam_ctrl.h:103-108 | `activeCam` null, `latestCam` empty, minimap uninitialised; hence not interpolating and vanilla active |
| CamControl.CamStack.Spawn | source/gravity_cam_ctrl.cpp:10-25 | a fresh camera of `SpawnType` on top of the chain |
| CamControl.CamStack.Activate | source/gravity_cam_ctrl.cpp:27-38 | camera i becomes the only active one, and every older camera is set forward |
| CamControl.CamStack.ForwardOlder | source/gravity_cam_ctrl.cpp:32-37 | the loop over `prev` sets every older camera forward |
| CamControl.CamStack.Push | source/gravity_cam_ctrl.cpp:46-47 | a new camera, activated; afterwards interpolating iff there was a camera before |
| CamControl.CamStack.FindEquivalent | source/gravity_cam_ctrl.cpp:57-66 | the search from `latestCam->prev` computes `FirstEquivalent` |
| CamControl.CamStack.ReturnTo | source/gravity_cam_ctrl.cpp:61-62 | camera j is set backward and activated |
| CamControl.CamStack.Retarget | source/gravity_cam_ctrl.cpp:54 | the active camera takes the field iff `CanChangeField` |
| CamControl.CamStack.CheckFieldChange | source/gravity_cam_ctrl.cpp:40-70 | no active camera: push one. Active field equivalent or taken: nothing else changes. Otherwise the first older equivalent camera is set backward and activated; if there is none, a new camera is pushed. The cameras' interpolator states and fields are given for each outcome. Afterwards the active camera's field is equivalent to the player's |
| CamControl.CamStack.ReturnOrPush | source/gravity_cam_ctrl.cpp:57-69 | the first older camera with an equivalent field is set backward and activated, older ones set forward; without one, a new camera is pushed and activated |
| CamControl.CamStack.Prune | source/gravity_cam_ctrl.cpp:72-98 | if the active camera is finished, newer cameras are dropped and it becomes latest. Then every inactive camera finished going forward is dropped, survivors in order, the active one always kept |
| CamControl.CamStack.Trim | source/gravity_cam_ctrl.cpp:74-85 | the cameras newer than the active one are dropped |
| CamControl.CamStack.UpdateStack | source/gravity_cam_ctrl.cpp:180-181 | the outcome, active camera, states and fields are those of `CheckFieldChange`; the remaining chain is `Prune`'s survivors of the chain it left. Afterwards there is a latest camera and an active one on the chain, over a field equivalent to the player's |
| CamControl.CamStack.ReportTransform | source/gravity_cam_ctrl.cpp:100-111 | an invalid transform of the active camera clears `activeCam`, so the vanilla camera counts as active |
| PlanetCamera.U16 | include/gravity_planet_cam.h:65 | the u16 conversion is in [0, 0x10000) and the identity there |
| PlanetCamera.GetSettings | include/gravity_planet_cam.h:60-71 | null iff there is no table or id >= count; otherwise entry `base + 1 + 8·id` |
| PlanetCamera.GetSettingsReadable | include/gravity_planet_cam.h:60-71 | a non-null entry lies inside the table |
| PlanetCamera.InitialSettings | source/gravity_planet_cam.cpp:25-27 | the field's entry, else the previous camera's, else the defaults; never null |
| PlanetCamera.NewSettings | source/gravity_planet_cam.cpp:89-101 | on the ground, the floor's entry. In the air, the entry of the ground below, only if it activates in the air or the player is warping |
| PlanetCamera.TransitionSpeed | source/gravity_planet_cam.cpp:123 | 1/(u16(frames)+1) is in [0, 1], is 1 iff u16(frames) is 0, and is positive iff u16(frames) < 4096 |
| PlanetCamera.PlanetSettings.constructor | source/gravity_planet_cam.cpp:25-32 | currSettings by the fallback; every interpolator starts and targets its setting |
| PlanetCamera.PlanetSettings.UpdateTransitionSpeeds | source/gravity_planet_cam.cpp:121-125 | both speeds come from currSettings |
| PlanetCamera.PlanetSettings.Retarget | source/gravity_planet_cam.cpp:103-111 | new settings are taken iff non-null and different. Then every interpolator restarts from its current value and speed towards its new setting at t = 0, and both speeds are recomputed; otherwise the interpolators and the speeds are unchanged |
| PlanetCamera.PlanetSettings.RetargetAll | source/gravity_planet_cam.cpp:107-108 | every interpolator targets its setting at t = 0, starting from its old value with its old speed |
| PlanetCamera.PlanetSettings.AdvanceAll | source/gravity_planet_cam.cpp:115-116 | every interpolator advances by the transition speed |
| PlanetCamera.PlanetSettings.AdvanceSettings | source/gravity_planet_cam.cpp:113-118 | every interpolator advances by the transition speed with its curve kept; camAltitude moves exactly as much as the altitude setting |
| PlanetCamera.PlanetSettings.UpdateSettings | source/gravity_planet_cam.cpp:87-119 | currSettings follows the selection rule. When it changes, each interpolator restarts from its old value and speed towards its new setting, the speeds are recomputed from the new settings, and t becomes one step from 0. Otherwise the curves and speeds are kept and t takes one step. camAltitude moves exactly as much as the altitude setting |
| PlanetCamera.IdleRunSaturates | source/gravity_planet_cam.cpp:236-249 | k idle frames take the timer to min(timer + k, 8); horzDist is reset to -1 from the frame after it reaches 8 |
| PlanetCamera.ManualResetHandler.constructor | include/gravity_planet_cam.h:9-11 | horzDist -1, timer 8, inactive |
| PlanetCamera.ManualResetHandler.Start | include/gravity_planet_cam.h:19-26 | timer 0, hence active |
| PlanetCamera.ManualResetHandler.Stop | include/gravity_planet_cam.h:28-32 | the timer goes from 0 to 1 and is otherwise unchanged |
| PlanetCamera.ManualResetHandler.UpdateTimer | source/gravity_planet_cam.cpp:236-249 | an active reset runs unchanged; holding L starts it; otherwise one idle step and no further update |
| PlanetCamera.ManualResetHandler.Finish | source/gravity_planet_cam.cpp:297-298 | the timer becomes 1 once all targets are reached |
| PlanetCamera.LessZeroDen | source/gravity_planet_cam.cpp:207-213 | a zero-denominator ratio is never less; any other ratio is less than it |
| PlanetCamera.LessStrictWeakOrder | source/gravity_planet_cam.cpp:207-213 | with no negative denominator, `<` is irreflexive, asymmetric, negatively transitive and transitive |
| PlanetCamera.MinFrom | source/gravity_planet_cam.cpp:219-223 | the first loop's index: no later entry is less than it |
| PlanetCamera.MinIndex | source/gravity_planet_cam.cpp:219-223 | minIndex is an index of the array, and no later entry is less |
| PlanetCamera.MinIndexFirstMinimal | source/gravity_planet_cam.cpp:219-223 | with no negative denominator, minIndex is a minimum and the first one |
| PlanetCamera.TruncDiv | source/gravity_planet_cam.cpp:227 | C++ division: magnitude \|a\|/\|b\|, sign of a·b, and Euclidean division on non-negative operands |
| PlanetCamera.TruncDivNegate | source/gravity_planet_cam.cpp:227 | truncation is odd in the dividend |
| PlanetCamera.Minimized | source/gravity_planet_cam.cpp:225-227 | keeps the length |
| PlanetCamera.MinimizedKeeps | source/gravity_planet_cam.cpp:225-227 | the minimum entry and every denominator are unchanged |
| PlanetCamera.MinimizedNotAbove | source/gravity_planet_cam.cpp:225-227 | with positive denominators and a non-negative minimum numerator, no rescaled entry exceeds the minimum ratio |
| PlanetCamera.MinIndexZeroDen | source/gravity_planet_cam.cpp:207-223 | minIndex names a zero denominator exactly when every denominator is 0 |
| PlanetCamera.ResetRatios | source/gravity_planet_cam.cpp:266-292 | the three ratios `Update` builds: angular speeds clamped to at most 0x400, and the horizontal ratio over `maxHorzDist - horzDist` |
| PlanetCamera.MinimizeRatiosZeroDivisor | source/gravity_planet_cam.cpp:227 | with both angle distances 0 and `horzDist == maxHorzDist`, minIndex names a zero denominator, so the division at line 227 has divisor 0 |
| PlanetCamera.FindMinIndex | source/gravity_planet_cam.cpp:219-223 | the first loop computes `MinIndex` |
| PlanetCamera.RescaleOthers | source/gravity_planet_cam.cpp:225-227 | the second loop leaves the array equal to `Minimized` of its old contents |
| PlanetCamera.MinimizeRatios | source/gravity_planet_cam.cpp:216-228 | the array becomes `Minimized` of its old contents, for every array whose minimum has a non-zero denominator (the source divides by it) |
| PlanetCamera.MinimizedGuardedCases | source/gravity_planet_cam.cpp:216-228 | the guarded version leaves an array of zero denominators unchanged and otherwise equals `Minimized` |
| PlanetCamera.MinimizeRatiosGuarded | source/gravity_planet_cam.cpp:216-228 | for every non-empty array, the array becomes `MinimizedGuarded` of its old contents |
| ProxyEval.RunUnaliased | include/gravity_math.h:233 | evaluating into storage the expression does not read gives its meaning, in both modes |
| ProxyEval.RunAliased | include/gravity_math.h:242 | with `resMayAlias`, evaluation gives the meaning whatever the destination, provided no Proxy-Proxy right operand reads it |
| ProxyEval.SelfAssignment | include/gravity_math.h:436-452 | `a = a + p`, `a - p`, `a.Cross(p)` into a itself equal evaluation into fresh storage |
| ProxyEval.ProxyProxyAliasCounterexample | include/gravity_math.h:153-161 | `a = Raw(b) + (a << 1)` with a = (1,0,0), b = 0 gives 0, not (2,0,0) |
| ProxyEval.RunFixedUnaliased | include/gravity_math.h:153-161 | the corrected evaluation gives the meaning into unread storage |
| ProxyEval.RunFixedAliased | include/gravity_math.h:110-118 | the corrected evaluation gives the meaning for every expression and destination |
| ProxyEval.Memory.constructor | include/gravity_math.h:233 | the memory holds the initial vectors |
| ProxyEval.Memory.Eval | include/gravity_math.h:61-62 | only the destination changes, to the value of the evaluation as written |
| ProxyEval.Memory.EvalFixed | include/gravity_math.h:182-190 | only the destination changes, to the expression's meaning in alias mode or into unread storage |

## Left out

- The numeric library (`Lib`) is a parameter. The model does not capture:
  - the rounding of Fix12 and Fix24 products;
  - `Sqrt`, `Atan2`, `DivQ24`, `LenVec3`, `Normalized`, `SmoothStep`, `RotateAround` and `SphericalForwardField`;
  - the cosine polynomial's values (`CosQ24` is proved only structurally);
  - orthonormality of any basis, and the ±1 angle round-trip.
- Fix12/Fix24 products and vector sums are unbounded integers: a 32-bit overflow inside them is not modelled. The wraps that matter to the decision logic are modelled explicitly.
- FixedMath.OrthoZeroed: the squares of the components are exact integers; the 32-bit squares of the source agree for vectors of unit length.
- Interp.SqaerpVelocityNonPositive: proved only for accelerations up to 0x2000 and budgets up to 180 degrees. The only caller, `CalculateUpVector`, uses 1 degree (182) and at most 0x8000. SqaerpVelocityWrapExample shows the wrap the bound excludes.
- Interp.UnitSmoothInterp.SwitchDirection: the coefficients of the reversed curve (`Sqrt` and a Fix12 division) are uninterpreted; the new `end` is stored as a short.
- Sorting.InsertionSort: the comparator is `rank(x) < rank(y)` over an integer key, which covers `Fill`'s `p0.param2 > p1.param2`.
- `Fill` reads the level's paths (`NUM_PATHS`, the path array) and checks that the root actor (id 3) exists. Here those are the paths parameter and `levelLoaded`. Arena allocation is an `Option<nat>` size, and `sizeof` of each field class is the `sizeOf` parameter.
- The asm hooks, extension placement and allocation hooks (source/gravity_actor_extension.cpp:3-90) are not modelled, nor the address arithmetic of `ActorExtension::Get`. Actors and their extensions are slots of a `World`; a node is its slot index.
- The engine is reduced to the actor fields the gravity code reads. The player, the "in the player's hand" flag, the first-person state and the view matrix become fields and parameters. `CalculateFirstFieldMatrix`'s entrance view position is the parameter `viewPos`.
- The camera's `Update` interpolation and quaternion blending (source/gravity_cam_ctrl.cpp:183-231), `UpdatePaused` and `GetMinimapAngle` are not modelled. Neither is any camera's `CalculateTransform`: its validity is the parameter of `ReportTransform`.
- The first-person and cutscene cameras (source/gravity_first_person_cam.cpp, source/gravity_cutscene_cam.cpp) are modelled only through their `CanChangeField` rules. The planet camera's altitude-vector comparison is a boolean parameter.
- The `PlanetCam` geometry is not modelled:
  - `camPos` and the axes;
  - the position branches of the constructor;
  - `UpdateCamPos`, `ApplyRotations` and `GetAngleDistAndDir`;
  - the geometric part of `ManualResetHandler::Update`;
  - `playerRight`.
  `Start` takes horzDist and the angle as parameters. The uninitialised `angle` member starts at 0.
- PlanetCamera.PlanetSettings: not linked to a `CamStack` camera. The previous camera's settings are a constructor parameter, and the floor's CLPS byte and the ground below are parameters of `UpdateSettings`.
- PlanetCamera.MinimizeRatios: the ordering lemmas `MinIndexFirstMinimal` and `MinimizedNotAbove` hold only on part of the domain. The first needs no negative denominator; the second needs positive denominators and a non-negative minimum numerator. The only caller (source/gravity_planet_cam.cpp:266-270) leaves that domain: a denominator is 0 once an angle target is reached, and `maxHorzDist - horzDist` is negative when the camera is farther out than the setting. With some denominator non-zero, `MinimizeRatios` is modelled exactly (`Minimized`, `MinIndex`, `LessZeroDen`), but `minIndex` need not be a minimum and a rescaled entry may exceed it. With every denominator 0, the source divides by zero at source/gravity_planet_cam.cpp:227. The requires of `MinimizeRatios` excludes that case, and the Findings table records it.
- GravityActors.World.BeforeBehavior: the function-local `static bool shouldTransformOthers` (source/gravity_actor_behavior.cpp:65-72) is not global state here. `BeforeBehavior` returns the flag and the caller passes it to `AfterBehavior`. The two agree when every before phase is followed by its after phase, as the engine's `Actor::BeforeBehavior` and `Actor::AfterBehavior` hooks call them for one actor at a time.
- GravityActors.World.AfterBehavior: receives the flag from its caller instead of reading the static; see the line above.
- FieldIndex.GetFieldAt: the lookup is given the already-filled chain as a parameter. The lazy `Fill()` that `fieldList.begin()` runs on first use (source/gravity_field.cpp:309, 332) is not modelled, and nothing ties the parameter to the chain `GravityFieldList.Fill` builds.
- FieldIndex.GetFieldFor: takes the filled chain as a parameter too, so the lazy `Fill()` on first use is not modelled here either.
- Input (buttons), raycasts, the level overlay's settings table and the Kuppa script flag are parameters.
- Rendering, particles, collision hooks and the miscellaneous engine patches are not part of this model: source/gravity_model.cpp, source/gravity_particle.cpp, source/gravity_meshclsn.cpp, source/gravity_cylclsn.cpp and source/gravity_misc.cpp.

## Findings

| source | as written | input that shows it | evidently intended | confidence | as-written member | corrected member |
|---|---|---|---|---|---|---|
| include/gravity_math.h:153-161 (also 110-118, 182-190) | with `resMayAlias`, a Proxy-Proxy `+`, `-` or `Cross` evaluates the left proxy into the destination and only then evaluates the right proxy into a temporary, so a right proxy that reads the destination sees the overwritten value | `a = Raw(b) + (a << 1)` with a = (1, 0, 0) and b = (0, 0, 0) gives (0, 0, 0) instead of (2, 0, 0) | in alias mode, evaluate the right operand into the temporary first, as the Vector-Proxy operators copy their vector operand first | low to medium; not executed; no expression in the modelled callers has a right proxy that reads the destination | ProxyEval.ProxyProxyAliasCounterexample | ProxyEval.RunFixedAliased |
| source/gravity_planet_cam.cpp:225-227 (caller at 266-294) | the second loop of `MinimizeRatios` divides by the minimum's denominator, which is 0 whenever every denominator is 0 | L starts a reset while both angle distances are 0 and `horzDist == maxHorzDist`: the ratios are (0, 0), (0, 0) and (50, 0), minIndex is 0, and line 227 divides by 0 | skip the rescaling when the minimum's denominator is 0; every target is then already reached, and `ApproachLinear` ignores the step | medium; not executed; integer division by zero is undefined in C++ | PlanetCamera.MinimizeRatiosZeroDivisor | PlanetCamera.MinimizeRatiosGuarded |
