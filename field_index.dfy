// The field index: the decomposition of authored paths into fields
// (FieldGenerator), the priority-sorted chain built once per level
// (GravityFieldList::Fill) and the query that resolves a position to its
// field (GravityField::GetFieldAt / GetFieldFor).
//
// Fields are values; the identity the source gets from pointers is a
// FieldRef: the static default field, or a position in the chain.

module FieldIndex {
  import opened FixedMath
  import opened GravityFields
  import Sorting

  /** GravityField::pathBaseParam1 and maxGravityFieldID. */
  const PATH_BASE_PARAM1: int := 0x40
  const MAX_GRAVITY_FIELD_ID: int := 0x10

  // ---------------------------------------------------------------------
  // FieldGenerator::Generate, as a specification

  /** One axial segment per pair of consecutive points, all of the given radius. */
  function AxialSegments(lib: Lib, pts: seq<Vec3>, radius: int): (r: seq<Shape>)
    ensures |pts| >= 1 ==> |r| == |pts| - 1
    ensures |pts| == 0 ==> r == []
    ensures forall i :: 0 <= i < |r| ==> r[i] == MakeAxial(lib, pts[i], pts[i + 1], radius)
    decreases |pts|
  {
    if |pts| < 2 then []
    else AxialSegments(lib, pts[..|pts| - 1], radius) + [MakeAxial(lib, pts[|pts| - 2], pts[|pts| - 1], radius)]
  }

  /** The shapes Generate spawns for a path, in spawn order. */
  function GenerateShapes(lib: Lib, path: Path): seq<Shape>
  {
    var nodes := path.nodes;
    var n := |nodes|;
    if n < 2 then []
    else if path.param1 - PATH_BASE_PARAM1 == 0 then
      if n == 2 then [MakeRadial(lib, nodes[0], nodes[1])]
      else AxialSegments(lib, nodes[..n - 1], Dist(lib, nodes[n - 1], nodes[n - 2]))
    else if path.param1 - PATH_BASE_PARAM1 == 1 then
      if n >= 3 then [MakeHomCylinder(lib, nodes[0], nodes[1], nodes[2])] else []
    else if path.param1 - PATH_BASE_PARAM1 == 2 then
      [MakeTrivialCylinder(lib, nodes[0], nodes[1])]
    else []
  }

  /** The fields Generate spawns for a path: each shape wrapped with the path's parameters. */
  function GenerateFields(lib: Lib, path: Path): (r: seq<Field>)
    ensures |r| == |GenerateShapes(lib, path)|
    ensures forall i :: 0 <= i < |r| ==> r[i] == PathField(path, GenerateShapes(lib, path)[i])
  {
    var shapes := GenerateShapes(lib, path);
    seq(|shapes|, i requires 0 <= i < |shapes| => PathField(path, shapes[i]))
  }

  /** What Generate produces, case by case. */
  lemma GenerateCases(lib: Lib, path: Path)
    ensures var n := |path.nodes|; var r := GenerateFields(lib, path);
      && (n < 2 ==> r == [])
      && (n >= 2 && path.param1 == 0x40 && n == 2 ==>
            r == [PathField(path, MakeRadial(lib, path.nodes[0], path.nodes[1]))])
      && (n >= 3 && path.param1 == 0x40 ==>
            && |r| == n - 2
            && forall i :: 0 <= i < n - 2 ==>
                 r[i] == PathField(path, MakeAxial(lib, path.nodes[i], path.nodes[i + 1],
                                                   Dist(lib, path.nodes[n - 1], path.nodes[n - 2]))))
      && (n >= 2 && path.param1 == 0x41 ==> (r != [] <==> n >= 3))
      && (n >= 2 && path.param1 == 0x42 ==>
            r == [PathField(path, MakeTrivialCylinder(lib, path.nodes[0], path.nodes[1]))])
      && (path.param1 !in {0x40, 0x41, 0x42} ==> r == [])
  {
    var n := |path.nodes|;
    if n >= 3 && path.param1 == 0x40 {
      AxialFields(lib, path, Dist(lib, path.nodes[n - 1], path.nodes[n - 2]));
    }
  }

  /** The first k axial fields of a path: field i joins nodes i and i + 1, all of the given radius. */
  function AxialRun(lib: Lib, path: Path, radius: int, k: nat): (r: seq<Field>)
    requires k < |path.nodes|
    ensures |r| == k
    ensures forall i {:trigger r[i]} :: 0 <= i < k ==> r[i] == PathField(path, MakeAxial(lib, path.nodes[i], path.nodes[i + 1], radius))
  {
    if k == 0 then []
    else AxialRun(lib, path, radius, k - 1) + [PathField(path, MakeAxial(lib, path.nodes[k - 1], path.nodes[k], radius))]
  }

  /** The total size of the first k axial fields of a path. */
  function AxialRunSize(lib: Lib, sizeOf: Shape -> nat, path: Path, radius: int, k: nat): nat
    requires k < |path.nodes|
  {
    if k == 0 then 0
    else AxialRunSize(lib, sizeOf, path, radius, k - 1) + sizeOf(MakeAxial(lib, path.nodes[k - 1], path.nodes[k], radius))
  }

  lemma {:induction false} AxialRunSizeIs(lib: Lib, sizeOf: Shape -> nat, path: Path, radius: int, k: nat)
    requires k < |path.nodes|
    ensures AxialRunSize(lib, sizeOf, path, radius, k) == FieldsSize(sizeOf, AxialRun(lib, path, radius, k))
  {
    if k > 0 {
      AxialRunSizeIs(lib, sizeOf, path, radius, k - 1);
      FieldsSizeAppendOne(sizeOf, AxialRun(lib, path, radius, k - 1),
                          PathField(path, MakeAxial(lib, path.nodes[k - 1], path.nodes[k], radius)));
    }
  }

  /** A path of three or more nodes and code 0 generates its axial run, whose radius is the length of its last edge. */
  lemma AxialFields(lib: Lib, path: Path, radius: int)
    requires |path.nodes| >= 3 && path.param1 == PATH_BASE_PARAM1
    requires radius == Dist(lib, path.nodes[|path.nodes| - 1], path.nodes[|path.nodes| - 2])
    ensures GenerateFields(lib, path) == AxialRun(lib, path, radius, |path.nodes| - 2)
  {
    var n := |path.nodes|;
    var segs := AxialSegments(lib, path.nodes[..n - 1], radius);
    assert GenerateShapes(lib, path) == segs;
    forall i | 0 <= i < n - 2
      ensures segs[i] == MakeAxial(lib, path.nodes[i], path.nodes[i + 1], radius)
    {
      assert path.nodes[..n - 1][i] == path.nodes[i];
      assert path.nodes[..n - 1][i + 1] == path.nodes[i + 1];
    }
  }

  /** Every field of a path has the path's priority, which is never negative. */
  lemma GeneratePriority(lib: Lib, path: Path)
    ensures forall f :: f in GenerateFields(lib, path) ==> f.priority == path.param2 >= 0
  {
  }

  // ---------------------------------------------------------------------
  // The size accounting

  /** The sizes of the field classes: sizeof(FieldImpl<F>), never 0 in C++. */
  ghost predicate PositiveSizes(sizeOf: Shape -> nat)
  {
    forall s :: sizeOf(s) > 0
  }

  function FieldsSize(sizeOf: Shape -> nat, fs: seq<Field>): nat
    decreases |fs|
  {
    if |fs| == 0 then 0 else FieldsSize(sizeOf, fs[..|fs| - 1]) + sizeOf(fs[|fs| - 1].shape)
  }

  lemma {:induction false} FieldsSizeAppend(sizeOf: Shape -> nat, a: seq<Field>, b: seq<Field>)
    ensures FieldsSize(sizeOf, a + b) == FieldsSize(sizeOf, a) + FieldsSize(sizeOf, b)
    decreases |b|
  {
    if |b| == 0 {
      assert a + b == a;
    } else {
      assert (a + b)[..|a + b| - 1] == a + b[..|b| - 1];
      assert (a + b)[|a + b| - 1] == b[|b| - 1];
      FieldsSizeAppend(sizeOf, a, b[..|b| - 1]);
    }
  }

  /** Appending a field adds its size. */
  lemma FieldsSizeAppendOne(sizeOf: Shape -> nat, fs: seq<Field>, f: Field)
    ensures FieldsSize(sizeOf, fs + [f]) == FieldsSize(sizeOf, fs) + sizeOf(f.shape)
  {
    assert (fs + [f])[..|fs|] == fs;
  }

  /** With positive sizes, a non-empty sequence of fields has a non-zero size. */
  lemma {:induction false} FieldsSizeZero(sizeOf: Shape -> nat, fs: seq<Field>)
    requires PositiveSizes(sizeOf)
    ensures FieldsSize(sizeOf, fs) == 0 <==> fs == []
  {
    if |fs| > 0 {
      assert sizeOf(fs[|fs| - 1].shape) > 0;
    }
  }

  // ---------------------------------------------------------------------
  // class FieldGenerator

  class FieldGenerator {
    /** sizeof of each field class. */
    const sizeOf: Shape -> nat
    /** The byte counter: the next free address, or the size so far when sizing. */
    var sizeCounter: int
    /** Whether nextPtr is non-null: fields are only constructed and linked when it is. */
    const linking: bool
    /** The fields constructed and linked through nextPtr, in order. */
    var linked: seq<Field>

    constructor(sizeOf: Shape -> nat, start: int, linking: bool)
      ensures this.sizeOf == sizeOf && sizeCounter == start && this.linking == linking && linked == []
    {
      this.sizeOf := sizeOf;
      sizeCounter := start;
      this.linking := linking;
      linked := [];
    }

    /** Spawn<F>: construct and link the field when linking; count its size in every case. */
    method Spawn(f: Field)
      modifies this
      ensures sizeCounter == old(sizeCounter) + sizeOf(f.shape)
      ensures linked == if linking then old(linked) + [f] else old(linked)
    {
      if linking {
        linked := linked + [f];
      }
      sizeCounter := sizeCounter + sizeOf(f.shape);
    }

    /** Generate(pathPtr). */
    method Generate(lib: Lib, path: Path)
      modifies this
      ensures sizeCounter == old(sizeCounter) + FieldsSize(sizeOf, GenerateFields(lib, path))
      ensures linked == if linking then old(linked) + GenerateFields(lib, path) else old(linked)
    {
      var n := |path.nodes|;
      if n < 2 {
        NothingGenerated(lib, sizeOf, path);
        return;
      }
      var code := path.param1 - PATH_BASE_PARAM1;
      if code == 0 {
        if n == 2 {
          var shape := MakeRadial(lib, path.nodes[0], path.nodes[1]);
          SpawnSingle(lib, path, shape);
        } else {
          var lastNodeID := n - 1;
          var radius := Dist(lib, path.nodes[lastNodeID], path.nodes[lastNodeID - 1]);
          SpawnSegments(lib, path, radius);
          AxialGenerated(lib, sizeOf, path, radius);
        }
      } else if code == 1 {
        if n >= 3 {
          var shape := MakeHomCylinder(lib, path.nodes[0], path.nodes[1], path.nodes[2]);
          SpawnSingle(lib, path, shape);
        } else {
          NothingGenerated(lib, sizeOf, path);
        }
      } else if code == 2 {
        var shape := MakeTrivialCylinder(lib, path.nodes[0], path.nodes[1]);
        SpawnSingle(lib, path, shape);
      } else {
        NothingGenerated(lib, sizeOf, path);
      }
    }

    /** Generate for a path that yields a single shape: spawn its one field. */
    method SpawnSingle(lib: Lib, path: Path, shape: Shape)
      requires GenerateShapes(lib, path) == [shape]
      modifies this
      ensures sizeCounter == old(sizeCounter) + FieldsSize(sizeOf, GenerateFields(lib, path))
      ensures linked == if linking then old(linked) + GenerateFields(lib, path) else old(linked)
    {
      SingleShape(lib, sizeOf, path, shape);
      Spawn(PathField(path, shape));
    }

    /**
     * The loop of Generate for a path of three or more nodes: one axial
     * field per pair of consecutive nodes before the last, all of the given
     * radius.
     */
    method SpawnSegments(lib: Lib, path: Path, radius: int)
      requires |path.nodes| >= 3
      modifies this
      ensures sizeCounter == old(sizeCounter) + AxialRunSize(lib, sizeOf, path, radius, |path.nodes| - 2)
      ensures linked == if linking then old(linked) + AxialRun(lib, path, radius, |path.nodes| - 2) else old(linked)
    {
      var lastNodeID := |path.nodes| - 1;
      var p0 := path.nodes[0];
      var i := 1;
      while i < lastNodeID
        invariant 1 <= i <= lastNodeID
        invariant p0 == path.nodes[i - 1]
        invariant sizeCounter == old(sizeCounter) + AxialRunSize(lib, sizeOf, path, radius, i - 1)
        invariant linked == if linking then old(linked) + AxialRun(lib, path, radius, i - 1) else old(linked)
        decreases lastNodeID - i
      {
        var p1 := path.nodes[i];
        var f := PathField(path, MakeAxial(lib, p0, p1, radius));
        Spawn(f);
        p0 := p1;
        i := i + 1;
      }
    }
  }

  /** A path that generates no shape generates no field. */
  lemma NothingGenerated(lib: Lib, sizeOf: Shape -> nat, path: Path)
    requires |path.nodes| < 2 || path.param1 !in {0x40, 0x41, 0x42} || (path.param1 == 0x41 && |path.nodes| < 3)
    ensures GenerateFields(lib, path) == [] && FieldsSize(sizeOf, GenerateFields(lib, path)) == 0
  {
  }

  /** The fields and size of a path of three or more nodes and code 0 are those of its axial run. */
  lemma AxialGenerated(lib: Lib, sizeOf: Shape -> nat, path: Path, radius: int)
    requires |path.nodes| >= 3 && path.param1 == PATH_BASE_PARAM1
    requires radius == Dist(lib, path.nodes[|path.nodes| - 1], path.nodes[|path.nodes| - 2])
    ensures GenerateFields(lib, path) == AxialRun(lib, path, radius, |path.nodes| - 2)
    ensures FieldsSize(sizeOf, GenerateFields(lib, path)) == AxialRunSize(lib, sizeOf, path, radius, |path.nodes| - 2)
  {
    AxialFields(lib, path, radius);
    AxialRunSizeIs(lib, sizeOf, path, radius, |path.nodes| - 2);
  }

  /** A path that generates a single shape generates its field, of that shape's size. */
  lemma SingleShape(lib: Lib, sizeOf: Shape -> nat, path: Path, shape: Shape)
    requires GenerateShapes(lib, path) == [shape]
    ensures GenerateFields(lib, path) == [PathField(path, shape)]
    ensures FieldsSize(sizeOf, GenerateFields(lib, path)) == sizeOf(shape)
  {
    assert GenerateFields(lib, path)[..0] == [];
  }

  // ---------------------------------------------------------------------
  // GravityFieldList::Fill, as a specification

  /** Fill's first pass keeps a path iff param1 >= 0x40 and it generates something. */
  predicate KeepsPath(lib: Lib, path: Path)
  {
    path.param1 >= PATH_BASE_PARAM1 && GenerateFields(lib, path) != []
  }

  /** The kept paths in authoring order. */
  function Kept(lib: Lib, paths: seq<Path>): (r: seq<Path>)
    ensures forall p :: p in r ==> p in paths && KeepsPath(lib, p)
    decreases |paths|
  {
    if |paths| == 0 then []
    else Kept(lib, paths[..|paths| - 1]) + (if KeepsPath(lib, paths[|paths| - 1]) then [paths[|paths| - 1]] else [])
  }

  /** The sort key: cmp(p0, p1) == (p0.param2 > p1.param2), so descending priority. */
  function PathRank(p: Path): int { 0 - p.param2 as int }

  /** The fields of the paths, one path after another. */
  function Flatten(lib: Lib, paths: seq<Path>): seq<Field>
    decreases |paths|
  {
    if |paths| == 0 then [] else Flatten(lib, paths[..|paths| - 1]) + GenerateFields(lib, paths[|paths| - 1])
  }

  /** The chain Fill builds: the fields of the kept paths, sorted stably by descending priority. */
  function FillChain(lib: Lib, paths: seq<Path>): seq<Field>
  {
    Flatten(lib, Sorting.SortSeq(Kept(lib, paths), PathRank))
  }

  lemma FlattenStep(lib: Lib, paths: seq<Path>, i: int)
    requires 0 <= i < |paths|
    ensures Flatten(lib, paths[..i + 1]) == Flatten(lib, paths[..i]) + GenerateFields(lib, paths[i])
  {
    assert paths[..i + 1][..i] == paths[..i];
  }

  lemma FlattenAppendOne(lib: Lib, s: seq<Path>, x: Path)
    ensures Flatten(lib, s + [x]) == Flatten(lib, s) + GenerateFields(lib, x)
  {
    assert (s + [x])[..|s|] == s;
  }

  lemma SplitLast<T>(s: seq<T>)
    requires |s| > 0
    ensures s == s[..|s| - 1] + [s[|s| - 1]]
  {
  }

  lemma FlattenSizeAppendOne(lib: Lib, sizeOf: Shape -> nat, s: seq<Path>, x: Path)
    ensures FieldsSize(sizeOf, Flatten(lib, s + [x])) == FieldsSize(sizeOf, Flatten(lib, s)) + FieldsSize(sizeOf, GenerateFields(lib, x))
  {
    FlattenAppendOne(lib, s, x);
    FieldsSizeAppend(sizeOf, Flatten(lib, s), GenerateFields(lib, x));
  }

  lemma {:induction false} FlattenSizeInsert(lib: Lib, sizeOf: Shape -> nat, s: seq<Path>, x: Path)
    ensures FieldsSize(sizeOf, Flatten(lib, Sorting.InsertBack(s, x, PathRank)))
         == FieldsSize(sizeOf, Flatten(lib, s)) + FieldsSize(sizeOf, GenerateFields(lib, x))
    decreases |s|
  {
    if |s| == 0 {
      assert Sorting.InsertBack(s, x, PathRank) == s + [x];
      FlattenSizeAppendOne(lib, sizeOf, s, x);
    } else if PathRank(x) < PathRank(s[|s| - 1]) {
      var init := s[..|s| - 1];
      var last := s[|s| - 1];
      var r := Sorting.InsertBack(init, x, PathRank);
      assert Sorting.InsertBack(s, x, PathRank) == r + [last];
      FlattenSizeInsert(lib, sizeOf, init, x);
      FlattenSizeAppendOne(lib, sizeOf, r, last);
      SplitLast(s);
      FlattenSizeAppendOne(lib, sizeOf, init, last);
    } else {
      assert Sorting.InsertBack(s, x, PathRank) == s + [x];
      FlattenSizeAppendOne(lib, sizeOf, s, x);
    }
  }

  /** Sorting does not change the total size: the sizing pass and the construction pass agree. */
  lemma {:induction false} FlattenSizeSorted(lib: Lib, sizeOf: Shape -> nat, s: seq<Path>)
    ensures FieldsSize(sizeOf, Flatten(lib, Sorting.SortSeq(s, PathRank))) == FieldsSize(sizeOf, Flatten(lib, s))
    decreases |s|
  {
    if |s| > 0 {
      var init := s[..|s| - 1];
      FlattenSizeSorted(lib, sizeOf, init);
      FlattenSizeInsert(lib, sizeOf, Sorting.SortSeq(init, PathRank), s[|s| - 1]);
      FieldsSizeAppend(sizeOf, Flatten(lib, init), GenerateFields(lib, s[|s| - 1]));
    }
  }

  /** Every field of paths whose param2 are all at least b has priority at least b. */
  lemma {:induction false} FlattenPriorityBound(lib: Lib, s: seq<Path>, b: int)
    requires forall k :: 0 <= k < |s| ==> s[k].param2 >= b
    ensures forall i :: 0 <= i < |Flatten(lib, s)| ==> Flatten(lib, s)[i].priority >= b
    decreases |s|
  {
    if |s| > 0 {
      var init := s[..|s| - 1];
      FlattenPriorityBound(lib, init, b);
      GeneratePriority(lib, s[|s| - 1]);
      var a: seq<Field> := Flatten(lib, init);
      var g: seq<Field> := GenerateFields(lib, s[|s| - 1]);
      forall i | 0 <= i < |a + g| ensures (a + g)[i].priority >= b {
        if i >= |a| {
          assert (a + g)[i] == g[i - |a|];
          assert g[i - |a|] in g;
        }
      }
    }
  }

  /** No field has a higher priority than one before it. */
  ghost predicate NonIncreasingPriority(c: seq<Field>)
  {
    forall i, j :: 0 <= i < j < |c| ==> c[i].priority >= c[j].priority
  }

  /** Paths sorted by descending param2 give a chain of non-increasing priority. */
  lemma {:induction false} FlattenSortedPriorities(lib: Lib, s: seq<Path>)
    requires Sorting.Sorted(s, PathRank)
    ensures NonIncreasingPriority(Flatten(lib, s))
    decreases |s|
  {
    if |s| > 0 {
      var init := s[..|s| - 1];
      var last := s[|s| - 1];
      assert Sorting.Sorted(init, PathRank);
      FlattenSortedPriorities(lib, init);
      assert forall k :: 0 <= k < |init| ==> init[k].param2 >= last.param2 by {
        forall k | 0 <= k < |init| ensures init[k].param2 >= last.param2 {
          assert PathRank(s[k]) <= PathRank(s[|s| - 1]);
        }
      }
      FlattenPriorityBound(lib, init, last.param2);
      GeneratePriority(lib, last);
      assert Flatten(lib, s) == Flatten(lib, init) + GenerateFields(lib, last);
      AppendRunKeepsOrder(Flatten(lib, init), GenerateFields(lib, last), last.param2);
    }
  }

  /** A chain of non-increasing priority stays so when a run of priority b, at most all of its priorities, is appended. */
  lemma AppendRunKeepsOrder(a: seq<Field>, g: seq<Field>, b: int)
    requires NonIncreasingPriority(a)
    requires forall i :: 0 <= i < |a| ==> a[i].priority >= b
    requires forall f :: f in g ==> f.priority == b
    ensures NonIncreasingPriority(a + g)
  {
    forall i, j | 0 <= i < j < |a + g| ensures (a + g)[i].priority >= (a + g)[j].priority {
      if j >= |a| {
        assert (a + g)[j] == g[j - |a|];
        assert g[j - |a|] in g;
        if i >= |a| {
          assert (a + g)[i] == g[i - |a|];
          assert g[i - |a|] in g;
        } else {
          assert (a + g)[i] == a[i];
        }
      } else {
        assert (a + g)[i] == a[i] && (a + g)[j] == a[j];
      }
    }
  }

  /** The paths of Fill's chain are a permutation of the kept paths, sorted by descending priority. */
  lemma FillChainPermutes(lib: Lib, paths: seq<Path>)
    ensures multiset(Sorting.SortSeq(Kept(lib, paths), PathRank)) == multiset(Kept(lib, paths))
    ensures Sorting.Sorted(Sorting.SortSeq(Kept(lib, paths), PathRank), PathRank)
  {
    Sorting.SortSeqPermutes(Kept(lib, paths), PathRank);
    Sorting.SortSeqSorted(Kept(lib, paths), PathRank);
  }

  /** Paths of equal priority keep their authoring order. */
  lemma FillChainStable(lib: Lib, paths: seq<Path>, k: int)
    ensures Sorting.WithKey(Sorting.SortSeq(Kept(lib, paths), PathRank), PathRank, k)
         == Sorting.WithKey(Kept(lib, paths), PathRank, k)
  {
    Sorting.SortSeqStable(Kept(lib, paths), PathRank, k);
  }

  /** The chain's priorities never increase along it. */
  lemma FillChainSorted(lib: Lib, paths: seq<Path>)
    ensures NonIncreasingPriority(FillChain(lib, paths))
  {
    var sorted := Sorting.SortSeq(Kept(lib, paths), PathRank);
    Sorting.SortSeqSorted(Kept(lib, paths), PathRank);
    FlattenSortedPriorities(lib, sorted);
  }

  /** IsPathGravityField. */
  predicate IsPathGravityField(path: Path)
  {
    PATH_BASE_PARAM1 <= path.param1 <= PATH_BASE_PARAM1 + MAX_GRAVITY_FIELD_ID
  }

  /** Every path Fill keeps is a gravity-field path (param1 in 0x40..0x42, inside 0x40..0x50). */
  lemma KeptArePathGravityFields(lib: Lib, paths: seq<Path>)
    ensures forall p :: p in Kept(lib, paths) ==> IsPathGravityField(p) && 0x40 <= p.param1 <= 0x42
  {
    forall p | p in Kept(lib, paths) ensures 0x40 <= p.param1 <= 0x42 {
      GenerateCases(lib, p);
    }
  }

  // ---------------------------------------------------------------------
  // class GravityFieldList

  class GravityFieldList {
    /** The arena: null, or the number of bytes allocated. */
    var storage: Option<nat>
    /** The chain from root along `next`. */
    var root: seq<Field>

    constructor()
      ensures storage == None && root == []
    {
      storage := None;
      root := [];
    }

    /**
     * Fill: does nothing once filled or before the level's root actor
     * (id 3) exists; otherwise keeps the generating paths, sorts them,
     * allocates what the sizing pass counted and constructs the chain.
     */
    method Fill(lib: Lib, sizeOf: Shape -> nat, paths: seq<Path>, levelLoaded: bool)
      requires PositiveSizes(sizeOf)
      modifies this
      ensures old(storage).Some? || !levelLoaded || Kept(lib, paths) == [] ==>
                storage == old(storage) && root == old(root)
      ensures old(storage).None? && levelLoaded && Kept(lib, paths) != [] ==>
                root == FillChain(lib, paths) && storage == Some(FieldsSize(sizeOf, root))
    {
      if storage.Some? || !levelLoaded {
        return;
      }
      var kept, size := SizingPass(lib, sizeOf, paths);
      if |kept| == 0 {
        return;
      }
      var pathArray := new Path[|kept|](i requires 0 <= i < |kept| => kept[i]);
      assert pathArray[..] == kept;
      Sorting.InsertionSort(pathArray, PathRank);
      FlattenSizeSorted(lib, sizeOf, kept);
      var chain := ConstructionPass(lib, sizeOf, pathArray);
      storage := Some(size);
      root := chain;
    }

    /** Fill's first loop: the kept paths in authoring order and the bytes their fields need. */
    static method SizingPass(lib: Lib, sizeOf: Shape -> nat, paths: seq<Path>) returns (kept: seq<Path>, size: nat)
      requires PositiveSizes(sizeOf)
      ensures kept == Kept(lib, paths)
      ensures size == FieldsSize(sizeOf, Flatten(lib, kept))
    {
      kept := [];
      size := 0;
      for i := 0 to |paths|
        invariant kept == Kept(lib, paths[..i])
        invariant size == FieldsSize(sizeOf, Flatten(lib, kept))
      {
        assert paths[..i + 1][..i] == paths[..i];
        if paths[i].param1 < PATH_BASE_PARAM1 {
          continue;
        }
        var generator := new FieldGenerator(sizeOf, 0, false);
        generator.Generate(lib, paths[i]);
        FieldsSizeZero(sizeOf, GenerateFields(lib, paths[i]));
        if generator.sizeCounter != 0 {
          size := size + generator.sizeCounter;
          FieldsSizeAppend(sizeOf, Flatten(lib, kept), GenerateFields(lib, paths[i]));
          FlattenAppendOne(lib, kept, paths[i]);
          kept := kept + [paths[i]];
        }
      }
      assert paths[..|paths|] == paths;
    }

    /** Fill's last loop: a linking generator run over the sorted paths. */
    static method ConstructionPass(lib: Lib, sizeOf: Shape -> nat, pathArray: array<Path>) returns (chain: seq<Field>)
      ensures chain == Flatten(lib, pathArray[..])
    {
      var generator := new FieldGenerator(sizeOf, 0, true);
      for j := 0 to pathArray.Length
        invariant generator.linked == Flatten(lib, pathArray[..j])
      {
        FlattenStep(lib, pathArray[..], j);
        assert pathArray[..][..j] == pathArray[..j] && pathArray[..][..j + 1] == pathArray[..j + 1];
        generator.Generate(lib, pathArray[j]);
      }
      assert pathArray[..pathArray.Length] == pathArray[..];
      chain := generator.linked;
    }

    /** Clear: release the arena and empty the chain. */
    method Clear()
      modifies this
      ensures storage == None && root == []
    {
      storage := None;
      root := [];
    }
  }

  // ---------------------------------------------------------------------
  // Field identities

  datatype FieldRef = DefaultRef | InChain(index: nat)

  predicate ValidRef(chain: seq<Field>, r: FieldRef)
  {
    r.InChain? ==> r.index < |chain|
  }

  function Deref(chain: seq<Field>, r: FieldRef): Field
    requires ValidRef(chain, r)
  {
    match r
    case DefaultRef => DefaultField()
    case InChain(i) => chain[i]
  }

  /** IsTrivialEquivalent: the same field, or both trivial. */
  predicate IsTrivialEquivalent(chain: seq<Field>, a: FieldRef, b: FieldRef)
    requires ValidRef(chain, a) && ValidRef(chain, b)
  {
    a == b || (Deref(chain, a).trivial && Deref(chain, b).trivial)
  }

  /** IsTrivialEquivalent is an equivalence relation. */
  lemma TrivialEquivalence(chain: seq<Field>, a: FieldRef, b: FieldRef, c: FieldRef)
    requires ValidRef(chain, a) && ValidRef(chain, b) && ValidRef(chain, c)
    ensures IsTrivialEquivalent(chain, a, a)
    ensures IsTrivialEquivalent(chain, a, b) ==> IsTrivialEquivalent(chain, b, a)
    ensures IsTrivialEquivalent(chain, a, b) && IsTrivialEquivalent(chain, b, c) ==> IsTrivialEquivalent(chain, a, c)
  {
  }

  /** A non-trivial field is equivalent to itself only. */
  lemma NonTrivialEquivalentOnlyToItself(chain: seq<Field>, a: FieldRef, b: FieldRef)
    requires ValidRef(chain, a) && ValidRef(chain, b)
    requires !Deref(chain, a).trivial
    ensures IsTrivialEquivalent(chain, a, b) <==> a == b
  {
  }

  // ---------------------------------------------------------------------
  // GetFieldAt, as a specification

  /**
   * What GetFieldAt asks of one field of the chain at pos: its priority,
   * its altitude and whether its shape contains pos.
   */
  datatype Probe = Probe(priority: int, altitude: int, inside: bool)

  function ProbeAt(lib: Lib, f: Field, pos: Vec3): Probe
  {
    Probe(f.priority, Altitude(lib, f.shape, pos), Contains(lib, f.shape, pos))
  }

  /** The chain as GetFieldAt sees it at pos, one probe per field. */
  function Probes(lib: Lib, chain: seq<Field>, pos: Vec3): (ps: seq<Probe>)
    ensures |ps| == |chain|
    ensures forall i {:trigger ProbeAt(lib, chain[i], pos)} :: 0 <= i < |chain| ==> ps[i] == ProbeAt(lib, chain[i], pos)
  {
    seq(|chain|, i requires 0 <= i < |chain| => ProbeAt(lib, chain[i], pos))
  }

  /** The first probe of ps[from..] that is inside its shape. */
  function FirstInside(ps: seq<Probe>, from: nat): (r: Option<nat>)
    requires from <= |ps|
    ensures r.None? <==> forall i :: from <= i < |ps| ==> !ps[i].inside
    ensures r.Some? ==> from <= r.value < |ps| && ps[r.value].inside
    ensures r.Some? ==> forall i :: from <= i < r.value ==> !ps[i].inside
    decreases |ps| - from
  {
    if from == |ps| then None
    else if ps[from].inside then Some(from)
    else FirstInside(ps, from + 1)
  }

  /** The end of the run of probes of the given priority that starts at j. */
  function RunEnd(ps: seq<Probe>, priority: int, j: nat): (e: nat)
    requires j <= |ps|
    ensures j <= e <= |ps|
    ensures forall k :: j <= k < e ==> ps[k].priority == priority
    ensures e < |ps| ==> ps[e].priority != priority
    decreases |ps| - j
  {
    if j == |ps| || ps[j].priority != priority then j else RunEnd(ps, priority, j + 1)
  }

  /**
   * The second loop of GetFieldAt from index j: best is the field found so
   * far and lowest its altitude; a later field of the same priority wins
   * only with a strictly lower altitude.
   */
  function Lowest(ps: seq<Probe>, priority: int, j: nat, best: nat, lowest: int): nat
    requires best < j <= |ps|
    decreases |ps| - j
  {
    if j == |ps| || ps[j].priority != priority then best
    else if lowest > ps[j].altitude && ps[j].inside then Lowest(ps, priority, j + 1, j, ps[j].altitude)
    else Lowest(ps, priority, j + 1, best, lowest)
  }

  /** Both loops of GetFieldAt over the probes. */
  function Select(ps: seq<Probe>): FieldRef
  {
    match FirstInside(ps, 0)
    case None => DefaultRef
    case Some(first) => InChain(Lowest(ps, ps[first].priority, first + 1, first, ps[first].altitude))
  }

  /** GetFieldAt. */
  function FieldAt(lib: Lib, chain: seq<Field>, pos: Vec3): FieldRef
  {
    Select(Probes(lib, chain, pos))
  }

  /** GetFieldFor. */
  function FieldFor(lib: Lib, chain: seq<Field>, alwaysInDefaultField: bool, pos: Vec3): FieldRef
  {
    if alwaysInDefaultField then DefaultRef else FieldAt(lib, chain, pos)
  }

  /**
   * What the second loop selects, relative to where it starts: a probe
   * inside its shape, no higher than lowest, of minimal altitude among the
   * inside probes of the run, and the earliest of those on a tie.
   */
  lemma {:induction false} LowestSelects(ps: seq<Probe>, priority: int, j: nat, best: nat, lowest: int)
    requires best < j <= |ps|
    requires ps[best].inside && lowest == ps[best].altitude
    ensures var k := Lowest(ps, priority, j, best, lowest);
      && (k == best || j <= k < RunEnd(ps, priority, j))
      && ps[k].inside && ps[k].altitude <= lowest
      && (ps[k].altitude == lowest ==> k == best)
      && forall m :: j <= m < RunEnd(ps, priority, j) && ps[m].inside ==>
           ps[k].altitude <= ps[m].altitude && (ps[m].altitude == ps[k].altitude ==> k <= m)
    decreases |ps| - j
  {
    if j == |ps| || ps[j].priority != priority {
    } else if lowest > ps[j].altitude && ps[j].inside {
      LowestSelects(ps, priority, j + 1, j, ps[j].altitude);
    } else {
      LowestSelects(ps, priority, j + 1, best, lowest);
    }
  }

  /** Select returns the default field exactly when no probe is inside, and otherwise an index of ps. */
  lemma SelectDefault(ps: seq<Probe>)
    ensures Select(ps).InChain? ==> Select(ps).index < |ps|
    ensures Select(ps) == DefaultRef <==> forall i :: 0 <= i < |ps| ==> !ps[i].inside
  {
    var first := FirstInside(ps, 0);
    if first.Some? {
      LowestSelects(ps, ps[first.value].priority, first.value + 1, first.value, ps[first.value].altitude);
    }
  }

  /** GetFieldAt returns the default field or a field of the chain. */
  lemma FieldAtValid(lib: Lib, chain: seq<Field>, pos: Vec3)
    ensures ValidRef(chain, FieldAt(lib, chain, pos))
  {
    SelectDefault(Probes(lib, chain, pos));
  }

  /** GetFieldAt returns the default field exactly when no field of the chain contains pos. */
  lemma FieldAtDefault(lib: Lib, chain: seq<Field>, pos: Vec3)
    ensures ValidRef(chain, FieldAt(lib, chain, pos))
    ensures FieldAt(lib, chain, pos) == DefaultRef <==> forall i :: 0 <= i < |chain| ==> !Contains(lib, chain[i].shape, pos)
  {
    var ps := Probes(lib, chain, pos);
    SelectDefault(ps);
    assert forall i :: 0 <= i < |chain| ==> ps[i].inside == Contains(lib, chain[i].shape, pos);
  }

  /**
   * When probe first is the first one inside, Select returns an inside
   * probe of first's run, of minimal altitude among the inside probes of
   * that run, and the earliest of those on a tie.
   */
  lemma SelectSelects(ps: seq<Probe>, first: nat)
    requires first < |ps| && ps[first].inside
    requires forall i :: 0 <= i < first ==> !ps[i].inside
    ensures var r := Select(ps); var end := RunEnd(ps, ps[first].priority, first);
      && r.InChain? && first <= r.index < end && ps[r.index].inside
      && forall m :: first <= m < end && ps[m].inside ==>
           ps[r.index].altitude <= ps[m].altitude && (ps[m].altitude == ps[r.index].altitude ==> r.index <= m)
  {
    var p := ps[first].priority;
    LowestSelects(ps, p, first + 1, first, ps[first].altitude);
    assert RunEnd(ps, p, first) == RunEnd(ps, p, first + 1);
  }

  /**
   * When field first is the first one that contains pos, GetFieldAt
   * returns a field that contains pos, in the run of first's priority, of
   * minimal altitude among the containing fields of that run, and the
   * earliest of those on a tie.
   */
  lemma FieldAtSelects(lib: Lib, chain: seq<Field>, pos: Vec3, first: nat)
    requires first < |chain| && ProbeAt(lib, chain[first], pos).inside
    requires forall i :: 0 <= i < first ==> !ProbeAt(lib, chain[i], pos).inside
    ensures var r := FieldAt(lib, chain, pos); var end := RunEnd(Probes(lib, chain, pos), chain[first].priority, first);
      && r.InChain? && first <= r.index < end
      && ProbeAt(lib, chain[r.index], pos).inside
      && chain[r.index].priority == chain[first].priority
      && forall m :: first <= m < end && ProbeAt(lib, chain[m], pos).inside ==>
           ProbeAt(lib, chain[r.index], pos).altitude <= ProbeAt(lib, chain[m], pos).altitude &&
           (ProbeAt(lib, chain[m], pos).altitude == ProbeAt(lib, chain[r.index], pos).altitude ==> r.index <= m)
  {
    SelectSelects(Probes(lib, chain, pos), first);
  }

  /** In a chain of non-increasing priority the run is every containing field of the top priority. */
  lemma FieldAtTopPriority(lib: Lib, chain: seq<Field>, pos: Vec3, first: nat, m: nat)
    requires NonIncreasingPriority(chain)
    requires first <= m < |chain| && Contains(lib, chain[m].shape, pos)
    ensures chain[m].priority <= chain[first].priority
    ensures chain[m].priority == chain[first].priority ==> m < RunEnd(Probes(lib, chain, pos), chain[first].priority, first)
  {
    var ps := Probes(lib, chain, pos);
    var p := chain[first].priority;
    var end := RunEnd(ps, p, first);
    if end < |chain| && end < m {
      assert chain[end].priority >= chain[m].priority;
    }
  }

  /** GetFieldFor: the default field for actors bound to it, else GetFieldAt at the actor's position. */
  lemma FieldForCases(lib: Lib, chain: seq<Field>, alwaysInDefaultField: bool, pos: Vec3)
    ensures alwaysInDefaultField ==> FieldFor(lib, chain, alwaysInDefaultField, pos) == DefaultRef
    ensures !alwaysInDefaultField ==> FieldFor(lib, chain, alwaysInDefaultField, pos) == FieldAt(lib, chain, pos)
  {
  }

  // ---------------------------------------------------------------------
  // GetFieldAt, the loops

  /** GetFieldAt over the chain: a linear walk to the first containing field, then a running minimum. */
  method GetFieldAt(lib: Lib, chain: seq<Field>, pos: Vec3) returns (r: FieldRef)
    ensures r == FieldAt(lib, chain, pos)
    ensures ValidRef(chain, r)
  {
    ghost var ps := Probes(lib, chain, pos);
    FieldAtValid(lib, chain, pos);
    var it := 0;
    while true
      invariant 0 <= it <= |chain|
      invariant FirstInside(ps, it) == FirstInside(ps, 0)
      decreases |chain| - it
    {
      if it == |chain| {
        return DefaultRef;
      }
      if Contains(lib, chain[it].shape, pos) {
        break;
      }
      it := it + 1;
    }
    assert ps[it] == ProbeAt(lib, chain[it], pos);
    var index := LowestInRun(lib, chain, pos, it);
    r := InChain(index);
  }

  /** GetFieldFor: the default field for an actor bound to it, else GetFieldAt at its position. */
  method GetFieldFor(lib: Lib, chain: seq<Field>, alwaysInDefaultField: bool, pos: Vec3) returns (r: FieldRef)
    ensures r == FieldFor(lib, chain, alwaysInDefaultField, pos)
    ensures ValidRef(chain, r)
  {
    if alwaysInDefaultField {
      r := DefaultRef;
    } else {
      r := GetFieldAt(lib, chain, pos);
    }
  }

  /** The second loop of GetFieldAt, from the first containing field. */
  method LowestInRun(lib: Lib, chain: seq<Field>, pos: Vec3, first: nat) returns (index: nat)
    requires first < |chain|
    ensures var ps := Probes(lib, chain, pos);
      index == Lowest(ps, ps[first].priority, first + 1, first, ps[first].altitude)
  {
    ghost var ps := Probes(lib, chain, pos);
    assert ps[first] == ProbeAt(lib, chain[first], pos);
    var priority := chain[first].priority;
    var lowestAltitude := Altitude(lib, chain[first].shape, pos);
    var lowestAltitudeField := first;
    var it := first + 1;
    while it != |chain| && chain[it].priority == priority
      invariant first < it <= |chain| && lowestAltitudeField < it
      invariant Lowest(ps, priority, it, lowestAltitudeField, lowestAltitude)
             == Lowest(ps, ps[first].priority, first + 1, first, ps[first].altitude)
      decreases |chain| - it
    {
      var altitude := Altitude(lib, chain[it].shape, pos);
      ContainsIsContainsAtAltitude(lib, chain[it].shape, pos);
      assert ps[it] == ProbeAt(lib, chain[it], pos);
      if lowestAltitude > altitude && ContainsAt(lib, chain[it].shape, pos, altitude) {
        lowestAltitude := altitude;
        lowestAltitudeField := it;
      }
      it := it + 1;
    }
    assert it < |chain| ==> ps[it] == ProbeAt(lib, chain[it], pos);
    index := lowestAltitudeField;
  }
}
