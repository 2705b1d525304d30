// Deferred evaluation of Vector3_Q24 expressions ("proxies").
//
// An expression over Q24 vectors is evaluated straight into its
// destination.  Assignment to an existing vector (`operator=`) evaluates
// with resMayAlias = true, because the destination may also be an operand;
// construction of a new vector evaluates with resMayAlias = false.  The
// vectors live in a memory of numbered slots, and Proxy + Proxy style
// operators evaluate their right operand into a stack temporary, which is a
// slot pushed for the duration of that evaluation.

module ProxyEval {
  import opened FixedMath

  /** Memory slot of a vector. */
  type Loc = nat

  datatype BinOp = Plus | Minus | CrossOp

  /** Operations on a single vector: `* scalar`, Normalized, NormalizedTwice, `<< n`, `>> n`. */
  datatype UnOp = Scale(s: int) | Normalize | NormalizeTwice | ShiftLeft(n: nat) | ShiftRight(n: nat)

  datatype Proxy =
    | Load(a: Loc)                              // Raw(v)
    | VecVec(op: BinOp, a: Loc, b: Loc)          // a + b, a - b, a.Cross(b)
    | VecUnary(u: UnOp, a: Loc)                  // a * s, a.Normalized(), a << n, ...
    | VecProxy(op: BinOp, a: Loc, p: Proxy)      // a + p, a - p, a.Cross(p)  (p + a is a + p)
    | ProxyVec(op: BinOp, p: Proxy, v: Loc)      // p - v, p.Cross(v)
    | ProxyUnary(u: UnOp, p: Proxy)              // p * s, p.Normalized(), p << n, ...
    | ProxyProxy(op: BinOp, p: Proxy, q: Proxy)  // p + q, p - q, p.Cross(q)

  function Pow2(n: nat): (r: int)
    ensures r >= 1
  {
    if n == 0 then 1 else 2 * Pow2(n - 1)
  }

  function Apply(lib: Lib, op: BinOp, x: Vec3, y: Vec3): Vec3
  {
    match op
    case Plus => Add(x, y)
    case Minus => Sub(x, y)
    case CrossOp => Cross24(lib, x, y)
  }

  function ApplyUnary(lib: Lib, u: UnOp, x: Vec3): Vec3
  {
    match u
    case Scale(s) => Scale24(lib, x, s)
    case Normalize => Normalized24(lib, x)
    case NormalizeTwice => Normalized24(lib, Normalized24(lib, x))
    case ShiftLeft(n) => Vec3(x.x * Pow2(n), x.y * Pow2(n), x.z * Pow2(n))
    case ShiftRight(n) => Vec3(x.x / Pow2(n), x.y / Pow2(n), x.z / Pow2(n))
  }

  /** The slots an expression reads. */
  function Locs(e: Proxy): set<Loc>
  {
    match e
    case Load(a) => {a}
    case VecVec(_, a, b) => {a, b}
    case VecUnary(_, a) => {a}
    case VecProxy(_, a, p) => {a} + Locs(p)
    case ProxyVec(_, p, v) => Locs(p) + {v}
    case ProxyUnary(_, p) => Locs(p)
    case ProxyProxy(_, p, q) => Locs(p) + Locs(q)
  }

  function Max(a: int, b: int): int { if a < b then b else a }

  /** The highest slot an expression reads. */
  function MaxLoc(e: Proxy): nat
  {
    match e
    case Load(a) => a
    case VecVec(_, a, b) => Max(a, b)
    case VecUnary(_, a) => a
    case VecProxy(_, a, p) => Max(a, MaxLoc(p))
    case ProxyVec(_, p, v) => Max(MaxLoc(p), v)
    case ProxyUnary(_, p) => MaxLoc(p)
    case ProxyProxy(_, p, q) => Max(MaxLoc(p), MaxLoc(q))
  }

  /** Every slot e reads exists in m. */
  predicate InRange(e: Proxy, m: seq<Vec3>)
  {
    MaxLoc(e) < |m|
  }

  lemma {:induction false} LocsBelowMax(e: Proxy)
    ensures forall l :: l in Locs(e) ==> l <= MaxLoc(e)
  {
    match e
    case Load(_) =>
    case VecVec(_, _, _) =>
    case VecUnary(_, _) =>
    case VecProxy(_, _, p) => LocsBelowMax(p);
    case ProxyVec(_, p, _) => LocsBelowMax(p);
    case ProxyUnary(_, p) => LocsBelowMax(p);
    case ProxyProxy(_, p, q) => LocsBelowMax(p); LocsBelowMax(q);
  }

  /** What the expression means: its value in memory m. */
  function Denote(lib: Lib, e: Proxy, m: seq<Vec3>): Vec3
    requires InRange(e, m)
  {
    match e
    case Load(a) => m[a]
    case VecVec(op, a, b) => Apply(lib, op, m[a], m[b])
    case VecUnary(u, a) => ApplyUnary(lib, u, m[a])
    case VecProxy(op, a, p) => Apply(lib, op, m[a], Denote(lib, p, m))
    case ProxyVec(op, p, v) => Apply(lib, op, Denote(lib, p, m), m[v])
    case ProxyUnary(u, p) => ApplyUnary(lib, u, Denote(lib, p, m))
    case ProxyProxy(op, p, q) => Apply(lib, op, Denote(lib, p, m), Denote(lib, q, m))
  }

  /**
   * The value the evaluation as written leaves in slot dst, starting from
   * memory m.  Each step reads the memory as the previous steps left it:
   * in alias mode the vector operand of `a op p` / `p op v` is copied
   * before p is evaluated into dst; Proxy-Proxy operators evaluate p into
   * dst and only then q into a temporary.
   */
  function Run(lib: Lib, e: Proxy, dst: Loc, m: seq<Vec3>, mayAlias: bool): Vec3
    requires InRange(e, m) && dst < |m|
    decreases e
  {
    match e
    case Load(a) => m[a]
    case VecVec(op, a, b) => Apply(lib, op, m[a], m[b])
    case VecUnary(u, a) => ApplyUnary(lib, u, m[a])
    case VecProxy(op, a, p) =>
      var pv := Run(lib, p, dst, m, mayAlias);
      var av := if mayAlias then m[a] else m[dst := pv][a];
      Apply(lib, op, av, pv)
    case ProxyVec(op, p, v) =>
      var pv := Run(lib, p, dst, m, mayAlias);
      var vv := if mayAlias then m[v] else m[dst := pv][v];
      Apply(lib, op, pv, vv)
    case ProxyUnary(u, p) => ApplyUnary(lib, u, Run(lib, p, dst, m, mayAlias))
    case ProxyProxy(op, p, q) =>
      var pv := Run(lib, p, dst, m, mayAlias);
      var m1 := m[dst := pv] + [Zero()];
      Apply(lib, op, pv, Run(lib, q, |m|, m1, false))
  }

  /**
   * The corrected evaluation: with resMayAlias a Proxy-Proxy operator
   * evaluates its right operand into the temporary first.
   */
  function RunFixed(lib: Lib, e: Proxy, dst: Loc, m: seq<Vec3>, mayAlias: bool): Vec3
    requires InRange(e, m) && dst < |m|
    decreases e
  {
    match e
    case Load(a) => m[a]
    case VecVec(op, a, b) => Apply(lib, op, m[a], m[b])
    case VecUnary(u, a) => ApplyUnary(lib, u, m[a])
    case VecProxy(op, a, p) =>
      var pv := RunFixed(lib, p, dst, m, mayAlias);
      var av := if mayAlias then m[a] else m[dst := pv][a];
      Apply(lib, op, av, pv)
    case ProxyVec(op, p, v) =>
      var pv := RunFixed(lib, p, dst, m, mayAlias);
      var vv := if mayAlias then m[v] else m[dst := pv][v];
      Apply(lib, op, pv, vv)
    case ProxyUnary(u, p) => ApplyUnary(lib, u, RunFixed(lib, p, dst, m, mayAlias))
    case ProxyProxy(op, p, q) =>
      if mayAlias then
        var qv := RunFixed(lib, q, |m|, m + [Zero()], false);
        Apply(lib, op, RunFixed(lib, p, dst, m, mayAlias), qv)
      else
        var pv := RunFixed(lib, p, dst, m, mayAlias);
        Apply(lib, op, pv, RunFixed(lib, q, |m|, m[dst := pv] + [Zero()], false))
  }

  /** Memory that agrees with m on every slot e reads gives e the same meaning. */
  lemma {:induction false} DenoteFrame(lib: Lib, e: Proxy, m: seq<Vec3>, m': seq<Vec3>)
    requires InRange(e, m) && InRange(e, m')
    requires forall l :: l in Locs(e) && l < |m| && l < |m'| ==> m[l] == m'[l]
    ensures Denote(lib, e, m) == Denote(lib, e, m')
    decreases e
  {
    match e
    case Load(_) =>
    case VecVec(_, _, _) =>
    case VecUnary(_, _) =>
    case VecProxy(_, _, p) => DenoteFrame(lib, p, m, m');
    case ProxyVec(_, p, _) => DenoteFrame(lib, p, m, m');
    case ProxyUnary(_, p) => DenoteFrame(lib, p, m, m');
    case ProxyProxy(_, p, q) => DenoteFrame(lib, p, m, m'); DenoteFrame(lib, q, m, m');
  }

  /**
   * Evaluating into a destination the expression does not read gives its
   * meaning, with or without resMayAlias.
   */
  lemma {:induction false} RunUnaliased(lib: Lib, e: Proxy, dst: Loc, m: seq<Vec3>, mayAlias: bool)
    requires InRange(e, m) && dst < |m| && dst !in Locs(e)
    ensures Run(lib, e, dst, m, mayAlias) == Denote(lib, e, m)
    decreases e
  {
    match e
    case Load(_) =>
    case VecVec(_, _, _) =>
    case VecUnary(_, _) =>
    case VecProxy(_, _, p) => RunUnaliased(lib, p, dst, m, mayAlias);
    case ProxyVec(_, p, _) => RunUnaliased(lib, p, dst, m, mayAlias);
    case ProxyUnary(_, p) => RunUnaliased(lib, p, dst, m, mayAlias);
    case ProxyProxy(_, p, q) =>
      RunUnaliased(lib, p, dst, m, mayAlias);
      var m1 := m[dst := Run(lib, p, dst, m, mayAlias)] + [Zero()];
      LocsBelowMax(q);
      RunUnaliased(lib, q, |m|, m1, false);
      DenoteFrame(lib, q, m1, m);
  }

  /**
   * When alias mode is safe for the evaluation as written: every
   * Proxy-Proxy node's right operand must not read the destination.
   */
  predicate AliasSafe(e: Proxy, dst: Loc)
  {
    match e
    case Load(_) => true
    case VecVec(_, _, _) => true
    case VecUnary(_, _) => true
    case VecProxy(_, _, p) => AliasSafe(p, dst)
    case ProxyVec(_, p, _) => AliasSafe(p, dst)
    case ProxyUnary(_, p) => AliasSafe(p, dst)
    case ProxyProxy(_, p, q) => AliasSafe(p, dst) && dst !in Locs(q)
  }

  /** With resMayAlias, an alias-safe expression evaluates to its meaning whatever dst is. */
  lemma {:induction false} RunAliased(lib: Lib, e: Proxy, dst: Loc, m: seq<Vec3>)
    requires InRange(e, m) && dst < |m| && AliasSafe(e, dst)
    ensures Run(lib, e, dst, m, true) == Denote(lib, e, m)
    decreases e
  {
    match e
    case Load(_) =>
    case VecVec(_, _, _) =>
    case VecUnary(_, _) =>
    case VecProxy(_, _, p) => RunAliased(lib, p, dst, m);
    case ProxyVec(_, p, _) => RunAliased(lib, p, dst, m);
    case ProxyUnary(_, p) => RunAliased(lib, p, dst, m);
    case ProxyProxy(_, p, q) =>
      RunAliased(lib, p, dst, m);
      var m1 := m[dst := Run(lib, p, dst, m, true)] + [Zero()];
      LocsBelowMax(q);
      RunUnaliased(lib, q, |m|, m1, false);
      DenoteFrame(lib, q, m1, m);
  }

  /**
   * `a = a + p`, `a = a - p` and `a = a.Cross(p)`: evaluating into a itself
   * gives the same vector as evaluating into fresh storage, because a is
   * copied before p overwrites it.
   */
  lemma SelfAssignment(lib: Lib, op: BinOp, a: Loc, p: Proxy, other: Loc, m: seq<Vec3>)
    requires InRange(VecProxy(op, a, p), m) && a < |m| && other < |m|
    requires other !in Locs(VecProxy(op, a, p))
    requires AliasSafe(p, a)
    ensures Run(lib, VecProxy(op, a, p), a, m, true) == Run(lib, VecProxy(op, a, p), other, m, false)
  {
    RunAliased(lib, VecProxy(op, a, p), a, m);
    RunUnaliased(lib, VecProxy(op, a, p), other, m, false);
  }

  /**
   * The evaluation as written goes wrong when the right operand of a
   * Proxy + Proxy reads the destination: a = Raw(b) + (a << 1) with a = (1, 0, 0)
   * and b = 0 should give (2, 0, 0) but gives 0.
   */
  lemma ProxyProxyAliasCounterexample(lib: Lib)
    ensures var e := ProxyProxy(Plus, Load(1), VecUnary(ShiftLeft(1), 0));
            var m := [Vec3(1, 0, 0), Zero()];
            Denote(lib, e, m) == Vec3(2, 0, 0) && Run(lib, e, 0, m, true) == Zero()
  {
    var e := ProxyProxy(Plus, Load(1), VecUnary(ShiftLeft(1), 0));
    var m := [Vec3(1, 0, 0), Zero()];
    assert Pow2(1) == 2;
    assert Run(lib, Load(1), 0, m, true) == Zero();
    var m1 := m[0 := Zero()] + [Zero()];
    assert Run(lib, VecUnary(ShiftLeft(1), 0), 2, m1, false) == Zero();
  }

  lemma {:induction false} RunFixedUnaliased(lib: Lib, e: Proxy, dst: Loc, m: seq<Vec3>, mayAlias: bool)
    requires InRange(e, m) && dst < |m| && dst !in Locs(e)
    ensures RunFixed(lib, e, dst, m, mayAlias) == Denote(lib, e, m)
    decreases e
  {
    match e
    case Load(_) =>
    case VecVec(_, _, _) =>
    case VecUnary(_, _) =>
    case VecProxy(_, _, p) => RunFixedUnaliased(lib, p, dst, m, mayAlias);
    case ProxyVec(_, p, _) => RunFixedUnaliased(lib, p, dst, m, mayAlias);
    case ProxyUnary(_, p) => RunFixedUnaliased(lib, p, dst, m, mayAlias);
    case ProxyProxy(_, p, q) =>
      RunFixedUnaliased(lib, p, dst, m, mayAlias);
      if mayAlias {
        LocsBelowMax(q);
        RunFixedUnaliased(lib, q, |m|, m + [Zero()], false);
        DenoteFrame(lib, q, m + [Zero()], m);
      } else {
        var m1 := m[dst := RunFixed(lib, p, dst, m, mayAlias)] + [Zero()];
        LocsBelowMax(q);
        RunFixedUnaliased(lib, q, |m|, m1, false);
        DenoteFrame(lib, q, m1, m);
      }
  }

  /** The corrected evaluation is alias-safe for every expression and destination. */
  lemma {:induction false} RunFixedAliased(lib: Lib, e: Proxy, dst: Loc, m: seq<Vec3>)
    requires InRange(e, m) && dst < |m|
    ensures RunFixed(lib, e, dst, m, true) == Denote(lib, e, m)
    decreases e
  {
    match e
    case Load(_) =>
    case VecVec(_, _, _) =>
    case VecUnary(_, _) =>
    case VecProxy(_, _, p) => RunFixedAliased(lib, p, dst, m);
    case ProxyVec(_, p, _) => RunFixedAliased(lib, p, dst, m);
    case ProxyUnary(_, p) => RunFixedAliased(lib, p, dst, m);
    case ProxyProxy(_, p, q) =>
      RunFixedAliased(lib, p, dst, m);
      LocsBelowMax(q);
      RunFixedUnaliased(lib, q, |m|, m + [Zero()], false);
      DenoteFrame(lib, q, m + [Zero()], m);
  }

  /** The vector memory the proxies read and write. */
  class Memory {
    var cells: seq<Vec3>

    constructor(init: seq<Vec3>)
      ensures cells == init
    {
      cells := init;
    }

    /**
     * Proxy::Eval<resMayAlias>(res) as written: writes into slot dst step
     * by step; temporaries are pushed and popped, so only dst changes.
     */
    method Eval(lib: Lib, e: Proxy, dst: Loc, mayAlias: bool)
      requires InRange(e, cells) && dst < |cells|
      modifies this
      ensures cells == old(cells)[dst := Run(lib, e, dst, old(cells), mayAlias)]
      decreases e
    {
      match e
      case Load(a) =>
        cells := cells[dst := cells[a]];
      case VecVec(op, a, b) =>
        cells := cells[dst := Apply(lib, op, cells[a], cells[b])];
      case VecUnary(u, a) =>
        cells := cells[dst := ApplyUnary(lib, u, cells[a])];
      case VecProxy(op, a, p) =>
        if mayAlias {
          var temp := cells[a];
          Eval(lib, p, dst, mayAlias);
          cells := cells[dst := Apply(lib, op, temp, cells[dst])];
        } else {
          Eval(lib, p, dst, mayAlias);
          cells := cells[dst := Apply(lib, op, cells[a], cells[dst])];
        }
      case ProxyVec(op, p, v) =>
        if mayAlias {
          var temp := cells[v];
          Eval(lib, p, dst, mayAlias);
          cells := cells[dst := Apply(lib, op, cells[dst], temp)];
        } else {
          Eval(lib, p, dst, mayAlias);
          cells := cells[dst := Apply(lib, op, cells[dst], cells[v])];
        }
      case ProxyUnary(u, p) =>
        Eval(lib, p, dst, mayAlias);
        cells := cells[dst := ApplyUnary(lib, u, cells[dst])];
      case ProxyProxy(op, p, q) =>
        Eval(lib, p, dst, mayAlias);
        var tmp := PushTemp();
        Eval(lib, q, tmp, false);
        var qv := PopTemp();
        cells := cells[dst := Apply(lib, op, cells[dst], qv)];
    }

    /** The corrected evaluation (right operand of a Proxy-Proxy first in alias mode). */
    method EvalFixed(lib: Lib, e: Proxy, dst: Loc, mayAlias: bool)
      requires InRange(e, cells) && dst < |cells|
      modifies this
      ensures cells == old(cells)[dst := RunFixed(lib, e, dst, old(cells), mayAlias)]
      ensures mayAlias || dst !in Locs(e) ==> cells == old(cells)[dst := Denote(lib, e, old(cells))]
      decreases e
    {
      if mayAlias {
        RunFixedAliased(lib, e, dst, cells);
      } else if dst !in Locs(e) {
        RunFixedUnaliased(lib, e, dst, cells, mayAlias);
      }
      match e
      case Load(a) =>
        cells := cells[dst := cells[a]];
      case VecVec(op, a, b) =>
        cells := cells[dst := Apply(lib, op, cells[a], cells[b])];
      case VecUnary(u, a) =>
        cells := cells[dst := ApplyUnary(lib, u, cells[a])];
      case VecProxy(op, a, p) =>
        if mayAlias {
          var temp := cells[a];
          EvalFixed(lib, p, dst, mayAlias);
          cells := cells[dst := Apply(lib, op, temp, cells[dst])];
        } else {
          EvalFixed(lib, p, dst, mayAlias);
          cells := cells[dst := Apply(lib, op, cells[a], cells[dst])];
        }
      case ProxyVec(op, p, v) =>
        if mayAlias {
          var temp := cells[v];
          EvalFixed(lib, p, dst, mayAlias);
          cells := cells[dst := Apply(lib, op, cells[dst], temp)];
        } else {
          EvalFixed(lib, p, dst, mayAlias);
          cells := cells[dst := Apply(lib, op, cells[dst], cells[v])];
        }
      case ProxyUnary(u, p) =>
        EvalFixed(lib, p, dst, mayAlias);
        cells := cells[dst := ApplyUnary(lib, u, cells[dst])];
      case ProxyProxy(op, p, q) =>
        if mayAlias {
          var tmp := PushTemp();
          EvalFixed(lib, q, tmp, false);
          var qv := PopTemp();
          EvalFixed(lib, p, dst, mayAlias);
          cells := cells[dst := Apply(lib, op, cells[dst], qv)];
        } else {
          EvalFixed(lib, p, dst, mayAlias);
          var tmp := PushTemp();
          EvalFixed(lib, q, tmp, false);
          var qv := PopTemp();
          cells := cells[dst := Apply(lib, op, cells[dst], qv)];
        }
    }

    /** A fresh stack temporary at the top of memory. */
    method PushTemp() returns (tmp: Loc)
      modifies this
      ensures cells == old(cells) + [Zero()] && tmp == |old(cells)|
    {
      tmp := |cells|;
      cells := cells + [Zero()];
    }

    /** Drops the top temporary, returning its value. */
    method PopTemp() returns (v: Vec3)
      requires |cells| > 0
      modifies this
      ensures cells == old(cells)[..|old(cells)| - 1] && v == old(cells)[|old(cells)| - 1]
    {
      v := cells[|cells| - 1];
      cells := cells[..|cells| - 1];
    }
  }
}
