// ActorList: the intrusive circular doubly-linked ring of the actors in
// one gravity field.  Nodes are indices into a shared pool whose `next`
// and `prev` arrays are the nodes' link fields; the ghost sequence
// `members` lists a ring in order, from the successor of `last` round to
// `last` itself.

module ActorRing {

  /** The null node. */
  const NULL: int := -1

  // ---------------------------------------------------------------------
  // Node flags (ActorList::Node constructor)

  /** Number (actor 0x14a) is always in the default field. */
  predicate AlwaysInDefaultField(actorID: int)
  {
    actorID == 0x14a
  }

  /** Star markers, red coins, numbers, exit warps and pseudo-mesh spheres are never transformed. */
  predicate ShouldBeTransformed(actorID: int)
  {
    actorID !in {0xb4, 0x121, 0x14a, 0x15d, 0x233}
  }

  /** Piranha plant flames (0xfe) spawn as sub-actors. */
  predicate CanSpawnAsSubActor(actorID: int)
  {
    actorID == 0xfe
  }

  // ---------------------------------------------------------------------
  // The ring invariant over plain sequences

  function Succ(i: nat, n: nat): nat
    requires i < n
  {
    if i + 1 == n then 0 else i + 1
  }

  function Pred(i: nat, n: nat): nat
    requires i < n
  {
    if i == 0 then n - 1 else i - 1
  }

  ghost predicate Distinct(s: seq<int>)
  {
    forall i, j :: 0 <= i < j < |s| ==> s[i] != s[j]
  }

  /**
   * members is a ring of distinct nodes linked forwards by next and
   * backwards by prev, ending at last; the empty ring has last == NULL.
   */
  ghost predicate RingOk(members: seq<int>, last: int, next: seq<int>, prev: seq<int>)
  {
    && |next| == |prev|
    && (forall i :: 0 <= i < |members| ==> 0 <= members[i] < |next|)
    && Distinct(members)
    && (members == [] <==> last == NULL)
    && (members != [] ==> last == members[|members| - 1])
    && (forall i {:trigger next[members[i]]} :: 0 <= i < |members| ==> next[members[i]] == members[Succ(i, |members|)])
    && (forall i {:trigger prev[members[i]]} :: 0 <= i < |members| ==> prev[members[i]] == members[Pred(i, |members|)])
  }

  /** The links of nodes outside a ring do not matter to it. */
  lemma RingFrame(members: seq<int>, last: int, next: seq<int>, prev: seq<int>, next': seq<int>, prev': seq<int>)
    requires RingOk(members, last, next, prev)
    requires |next'| == |next| && |prev'| == |prev|
    requires forall k :: k in members ==> next'[k] == next[k] && prev'[k] == prev[k]
    ensures RingOk(members, last, next', prev')
  {
    forall i | 0 <= i < |members| ensures next'[members[i]] == members[Succ(i, |members|)] {
      assert members[i] in members;
    }
    forall i | 0 <= i < |members| ensures prev'[members[i]] == members[Pred(i, |members|)] {
      assert members[i] in members;
    }
  }

  /** Insert's link surgery keeps the ring invariant with the node added at the end. */
  lemma RingInsert(m: seq<int>, last: int, next: seq<int>, prev: seq<int>, n: int)
    requires RingOk(m, last, next, prev)
    requires 0 <= n < |next| && n !in m
    ensures m == [] ==> RingOk([n], n, next[n := n], prev[n := n])
    ensures m != [] ==>
      var first := next[last];
      RingOk(m + [n], n, next[n := first][last := n], prev[first := n][n := last])
  {
    var m' := m + [n];
    if m != [] {
      var k := |m|;
      var first := next[last];
      assert first == m[0] by { assert next[m[k - 1]] == m[Succ(k - 1, k)]; }
      var next' := next[n := first][last := n];
      var prev' := prev[first := n][n := last];
      assert Distinct(m') by {
        forall i, j | 0 <= i < j < |m'| ensures m'[i] != m'[j] {
          if j == k { assert m'[i] in m; }
        }
      }
      forall i | 0 <= i < |m'| ensures next'[m'[i]] == m'[Succ(i, |m'|)] {
        if i == k {
        } else if i == k - 1 {
        } else {
          assert m'[i] == m[i] && m[i] != last && m[i] != n;
          assert next[m[i]] == m[Succ(i, k)];
        }
      }
      forall i | 0 <= i < |m'| ensures prev'[m'[i]] == m'[Pred(i, |m'|)] {
        if i == k {
        } else if i == 0 {
        } else {
          assert m'[i] == m[i] && m[i] != first && m[i] != n;
          assert prev[m[i]] == m[Pred(i, k)];
        }
      }
    }
  }

  /** The sequence with the element at index i left out. */
  function Without(s: seq<int>, i: nat): seq<int>
    requires i < |s|
  {
    s[..i] + s[i + 1..]
  }

  /** The index in s of element j of Without(s, i). */
  function Orig(j: nat, i: nat): nat
  {
    if j < i then j else j + 1
  }

  lemma WithoutIndex(s: seq<int>, i: nat)
    requires i < |s|
    ensures |Without(s, i)| == |s| - 1
    ensures forall j :: 0 <= j < |s| - 1 ==> Without(s, i)[j] == s[Orig(j, i)]
  {
  }

  lemma WithoutDistinct(s: seq<int>, i: nat)
    requires i < |s| && Distinct(s)
    ensures Distinct(Without(s, i))
    ensures s[i] !in Without(s, i)
    ensures forall k :: k in s <==> k in Without(s, i) || k == s[i]
  {
    WithoutIndex(s, i);
    var w := Without(s, i);
    forall k ensures k in s <==> k in w || k == s[i] {
      if k in s {
        var j :| 0 <= j < |s| && s[j] == k;
        if j < i { assert w[j] == k; } else if j > i { assert w[j - 1] == k; }
      }
      if k in w {
        var j :| 0 <= j < |w| && w[j] == k;
        assert s[Orig(j, i)] == k;
      }
    }
  }

  /** After Remove's splice, next still leads round the shorter ring. */
  lemma RemoveNextOk(m: seq<int>, next: seq<int>, i: nat, p: int, q: int)
    requires Distinct(m) && 2 <= |m| && i < |m|
    requires forall j :: 0 <= j < |m| ==> 0 <= m[j] < |next|
    requires forall j :: 0 <= j < |m| ==> next[m[j]] == m[Succ(j, |m|)]
    requires p == m[Pred(i, |m|)] && q == m[Succ(i, |m|)]
    ensures var m' := Without(m, i); forall j :: 0 <= j < |m'| ==> next[p := q][m'[j]] == m'[Succ(j, |m'|)]
  {
    var k := |m|;
    var m' := Without(m, i);
    WithoutIndex(m, i);
    forall j | 0 <= j < |m'| ensures next[p := q][m'[j]] == m'[Succ(j, |m'|)] {
      var oj := Orig(j, i);
      if m[oj] == p {
        assert oj == Pred(i, k);
      } else {
        assert Pred(i, k) != oj;
        assert Succ(oj, k) != i;
      }
    }
  }

  /** After Remove's splice, prev still leads back round the shorter ring. */
  lemma RemovePrevOk(m: seq<int>, prev: seq<int>, i: nat, p: int, q: int)
    requires Distinct(m) && 2 <= |m| && i < |m|
    requires forall j :: 0 <= j < |m| ==> 0 <= m[j] < |prev|
    requires forall j :: 0 <= j < |m| ==> prev[m[j]] == m[Pred(j, |m|)]
    requires p == m[Pred(i, |m|)] && q == m[Succ(i, |m|)]
    ensures var m' := Without(m, i); forall j :: 0 <= j < |m'| ==> prev[q := p][m'[j]] == m'[Pred(j, |m'|)]
  {
    var k := |m|;
    var m' := Without(m, i);
    WithoutIndex(m, i);
    forall j | 0 <= j < |m'| ensures prev[q := p][m'[j]] == m'[Pred(j, |m'|)] {
      var oj := Orig(j, i);
      if m[oj] == q {
        assert oj == Succ(i, k);
      } else {
        assert Succ(i, k) != oj;
        assert Pred(oj, k) != i;
      }
    }
  }

  /** Remove's link surgery keeps the ring invariant with the node left out. */
  lemma RingRemove(m: seq<int>, last: int, next: seq<int>, prev: seq<int>, i: nat)
    requires RingOk(m, last, next, prev) && i < |m|
    ensures var n := m[i]; var p := prev[n]; var q := next[n];
      var last' := if n != last then last else if prev[last] == last then NULL else prev[last];
      RingOk(Without(m, i), last', next[p := q], prev[q := p])
  {
    var k := |m|;
    var n := m[i];
    var p := prev[n];
    var q := next[n];
    var m' := Without(m, i);
    var last' := if n != last then last else if prev[last] == last then NULL else prev[last];
    WithoutIndex(m, i);
    WithoutDistinct(m, i);
    if k == 1 {
      assert m' == [];
      assert last == n && p == n;
    } else {
      assert p == m[Pred(i, k)] && q == m[Succ(i, k)];
      if i == k - 1 {
        assert last == n && prev[last] == m[k - 2] && m[k - 2] != last;
        assert m'[|m'| - 1] == m[k - 2];
      } else {
        assert last != n;
        assert m'[|m'| - 1] == m[k - 1];
      }
      assert last' == m'[|m'| - 1] && last' != NULL;
      RemoveNextOk(m, next, i, p, q);
      RemovePrevOk(m, prev, i, p, q);
    }
    assert RingOk(m', last', next[p := q], prev[q := p]);
  }

  /** The members after index i in ring order. */
  function After(s: seq<int>, i: nat): seq<int>
    requires i < |s|
  {
    s[i + 1..] + s[..i]
  }

  lemma AfterProps(s: seq<int>, i: nat)
    requires i < |s| && Distinct(s)
    ensures |After(s, i)| == |s| - 1
    ensures forall j :: 0 <= j < |s| - 1 ==> After(s, i)[j] == s[if i + 1 + j < |s| then i + 1 + j else i + 1 + j - |s|]
    ensures s[i] !in After(s, i)
    ensures forall k :: k in s <==> k in After(s, i) || k == s[i]
    ensures forall j :: 0 <= j < |s| && s[j] == s[i] ==> j == i
  {
    var a := After(s, i);
    forall k ensures k in s <==> k in a || k == s[i] {
      if k in s {
        var j :| 0 <= j < |s| && s[j] == k;
        if j > i {
          assert a[j - i - 1] == k;
        } else if j < i {
          assert a[|s| - 1 - i + j] == k;
        }
      }
    }
  }

  /** Walking a ring of distinct nodes visits each other node once. */
  lemma AfterDistinct(s: seq<int>, i: nat)
    requires i < |s| && Distinct(s)
    ensures Distinct(After(s, i))
  {
    var a := After(s, i);
    AfterProps(s, i);
    forall x, y | 0 <= x < y < |a|
      ensures a[x] != a[y]
    {
      var fx := if i + 1 + x < |s| then i + 1 + x else i + 1 + x - |s|;
      var fy := if i + 1 + y < |s| then i + 1 + y else i + 1 + y - |s|;
      assert a[x] == s[fx] && a[y] == s[fy];
      assert fx != fy;
    }
  }

  // ---------------------------------------------------------------------
  // All the rings at once

  /** No node is in two rings. */
  ghost predicate RingsDisjoint(ms: seq<seq<int>>)
  {
    forall c, d, k :: 0 <= c < |ms| && 0 <= d < |ms| && c != d && k in ms[c] ==> k !in ms[d]
  }

  /** Ring c is ms[c] ending at lasts[c], all over the same links, and the rings are disjoint. */
  ghost predicate RingsOk(ms: seq<seq<int>>, lasts: seq<int>, next: seq<int>, prev: seq<int>)
  {
    && |lasts| == |ms|
    && (forall c :: 0 <= c < |ms| ==> RingOk(ms[c], lasts[c], next, prev))
    && RingsDisjoint(ms)
  }

  /** Rebuilding ring i keeps the others, when it touches none of their nodes' links and takes none of their nodes. */
  lemma RingsUpdate(ms: seq<seq<int>>, lasts: seq<int>, next: seq<int>, prev: seq<int>,
                    i: nat, m': seq<int>, last': int, next': seq<int>, prev': seq<int>)
    requires RingsOk(ms, lasts, next, prev) && i < |ms|
    requires RingOk(m', last', next', prev') && |next'| == |next| && |prev'| == |prev|
    requires forall c, k :: 0 <= c < |ms| && c != i && k in ms[c] ==> next'[k] == next[k] && prev'[k] == prev[k] && k !in m'
    ensures RingsOk(ms[i := m'], lasts[i := last'], next', prev')
  {
    var ms' := ms[i := m'];
    forall c | 0 <= c < |ms| && c != i
      ensures RingOk(ms[c], lasts[c], next', prev')
    {
      RingFrame(ms[c], lasts[c], next, prev, next', prev');
    }
    forall c, d, k | 0 <= c < |ms'| && 0 <= d < |ms'| && c != d && k in ms'[c]
      ensures k !in ms'[d]
    {
      if c != i && d != i {
        assert k in ms[c];
      }
    }
  }

  /** Insert's link surgery on ring i keeps all the rings, with the new node appended to ring i. */
  lemma RingsInsert(ms: seq<seq<int>>, lasts: seq<int>, next: seq<int>, prev: seq<int>, i: nat, n: int)
    requires RingsOk(ms, lasts, next, prev) && i < |ms| && 0 <= n < |next|
    requires forall c :: 0 <= c < |ms| ==> n !in ms[c]
    ensures ms[i] == [] ==> lasts[i] == NULL && RingsOk(ms[i := [n]], lasts[i := n], next[n := n], prev[n := n])
    ensures ms[i] != [] ==>
      && 0 <= lasts[i] < |next| && 0 <= next[lasts[i]] < |prev|
      && RingsOk(ms[i := ms[i] + [n]], lasts[i := n], next[n := next[lasts[i]]][lasts[i] := n], prev[next[lasts[i]] := n][n := lasts[i]])
  {
    var m := ms[i];
    var last := lasts[i];
    assert RingOk(m, last, next, prev);
    RingInsert(m, last, next, prev, n);
    if m == [] {
      assert m + [n] == [n];
      forall c, k | 0 <= c < |ms| && c != i && k in ms[c]
        ensures next[n := n][k] == next[k] && prev[n := n][k] == prev[k] && k !in [n]
      {
      }
      RingsUpdate(ms, lasts, next, prev, i, [n], n, next[n := n], prev[n := n]);
    } else {
      var first := next[last];
      assert first == m[0] by { assert next[m[|m| - 1]] == m[Succ(|m| - 1, |m|)]; }
      assert last in m;
      var next' := next[n := first][last := n];
      var prev' := prev[first := n][n := last];
      forall c, k | 0 <= c < |ms| && c != i && k in ms[c]
        ensures next'[k] == next[k] && prev'[k] == prev[k] && k !in m + [n]
      {
        assert k !in m;
      }
      RingsUpdate(ms, lasts, next, prev, i, m + [n], n, next', prev');
    }
  }

  /** Remove's link surgery on ring i keeps all the rings, with node j of ring i left out. */
  lemma RingsRemove(ms: seq<seq<int>>, lasts: seq<int>, next: seq<int>, prev: seq<int>, i: nat, j: nat)
    requires RingsOk(ms, lasts, next, prev) && i < |ms| && j < |ms[i]|
    ensures var n := ms[i][j]; var p := prev[n]; var q := next[n]; var last := lasts[i];
      var last' := if n != last then last else if prev[last] == last then NULL else prev[last];
      && 0 <= n < |next| && 0 <= p < |next| && 0 <= q < |prev| && (n == last ==> 0 <= last < |prev|)
      && RingsOk(ms[i := Without(ms[i], j)], lasts[i := last'], next[p := q], prev[q := p])
      && last' == (if n != last then last else if |ms[i]| == 1 then NULL else ms[i][|ms[i]| - 2])
      && (last' == NULL <==> Without(ms[i], j) == [])
      && |Without(ms[i], j)| == |ms[i]| - 1
      && (forall k :: k in Without(ms[i], j) <==> k in ms[i] && k != n)
  {
    var m := ms[i];
    var n := m[j];
    var p := prev[n];
    var q := next[n];
    var last := lasts[i];
    var last' := if n != last then last else if prev[last] == last then NULL else prev[last];
    assert RingOk(m, last, next, prev);
    RingRemove(m, last, next, prev, j);
    WithoutDistinct(m, j);
    assert p == m[Pred(j, |m|)] && q == m[Succ(j, |m|)];
    forall c, k | 0 <= c < |ms| && c != i && k in ms[c]
      ensures next[p := q][k] == next[k] && prev[q := p][k] == prev[k] && k !in Without(m, j)
    {
      assert k !in m;
    }
    RingsUpdate(ms, lasts, next, prev, i, Without(m, j), last', next[p := q], prev[q := p]);
    WithoutIndex(m, j);
    assert |m| > 1 && n == last ==> prev[last] == m[|m| - 2] && prev[last] != last;
    assert RingOk(Without(m, j), last', next[p := q], prev[q := p]);
  }

  // ---------------------------------------------------------------------
  // The lists

  /**
   * The ActorList of every gravity field.  Node k is the ActorList::Node
   * base of actor extension k: next[k] and prev[k] are its links, and
   * lasts[i] is the `last` pointer of list i (NULL when it is empty).
   * Ghost members[i] is list i in ring order.
   */
  class ActorLists {
    const next: array<int>
    const prev: array<int>
    const lasts: array<int>
    ghost var members: seq<seq<int>>

    ghost predicate Valid()
      reads this, next, prev, lasts
    {
      && next != prev && lasts != next && lasts != prev && next.Length == prev.Length
      && RingsOk(members, lasts[..], next[..], prev[..])
    }

    /** count empty lists (ActorList's default constructor) over the links of nodes slots. */
    constructor(nodes: nat, count: nat)
      ensures Valid() && next.Length == nodes && lasts.Length == count
      ensures |members| == count && forall i :: 0 <= i < count ==> members[i] == []
    {
      next := new int[nodes];
      prev := new int[nodes];
      lasts := new int[count](_ => NULL);
      members := seq(count, _ => []);
    }

    /** GetNextOfNewNode: the old first node of list i, whose prev now is the new node; or the node itself. */
    method GetNextOfNewNode(i: int, node: int) returns (r: int)
      requires 0 <= i < lasts.Length && 0 <= node < prev.Length && prev != next && prev != lasts
      requires lasts[i] != NULL ==> 0 <= lasts[i] < next.Length && 0 <= next[lasts[i]] < prev.Length
      modifies prev
      ensures lasts[i] == NULL ==> r == node && prev[..] == old(prev[..])
      ensures lasts[i] != NULL ==> r == next[lasts[i]] && 0 <= r < prev.Length && prev[..] == old(prev[..])[r := node]
    {
      var last := lasts[i];
      if last == NULL {
        return node;
      }
      var first := next[last];
      prev[first] := node;
      return first;
    }

    /** GetPrevOfNewNode: the old last node of list i, whose next now is the new node; or the node itself. */
    method GetPrevOfNewNode(i: int, node: int) returns (r: int)
      requires 0 <= i < lasts.Length && 0 <= node < next.Length && next != lasts
      requires lasts[i] != NULL ==> 0 <= lasts[i] < next.Length
      modifies next
      ensures lasts[i] == NULL ==> r == node && next[..] == old(next[..])
      ensures lasts[i] != NULL ==> r == lasts[i] && next[..] == old(next[..])[r := node]
    {
      var last := lasts[i];
      if last == NULL {
        return node;
      }
      next[last] := node;
      return last;
    }

    /** Insert: the node goes in between last and the first node of list i, and becomes its last. */
    method Insert(i: int, node: int)
      requires Valid() && 0 <= i < lasts.Length && 0 <= node < next.Length
      requires forall c :: 0 <= c < |members| ==> node !in members[c]
      modifies this, next, prev, lasts
      ensures Valid()
      ensures members == old(members)[i := old(members[i]) + [node]]
      ensures lasts[..] == old(lasts[..])[i := node]
    {
      ghost var ms := members;
      ghost var lasts0, next0, prev0 := lasts[..], next[..], prev[..];
      RingsInsert(ms, lasts0, next0, prev0, i, node);
      var last := lasts[i];
      var n := GetNextOfNewNode(i, node);
      next[node] := n;
      var p := GetPrevOfNewNode(i, node);
      prev[node] := p;
      lasts[i] := node;
      assert lasts[..] == lasts0[i := node];
      if ms[i] == [] {
        assert next[..] == next0[node := node];
        assert prev[..] == prev0[node := node];
        assert ms[i] + [node] == [node];
      } else {
        assert next[..] == next0[node := n][last := node];
        assert prev[..] == prev0[n := node][node := last];
      }
      members := ms[i := ms[i] + [node]];
    }

    /** Remove: list i's last moves back to its predecessor (or to null) if the node was last; the neighbours are spliced. */
    method Remove(i: int, node: int)
      requires Valid() && 0 <= i < |members| && node in members[i]
      modifies this, next, prev, lasts
      ensures Valid()
      ensures exists j :: 0 <= j < |old(members[i])| && old(members[i])[j] == node &&
                members == old(members)[i := Without(old(members[i]), j)]
      ensures forall k :: k in members[i] <==> k in old(members[i]) && k != node
      // the ring shrinks by one, and last is null exactly when it is empty
      ensures |members[i]| == |old(members[i])| - 1 && (lasts[i] == NULL <==> members[i] == [])
      ensures lasts[..] == old(lasts[..])[i := if old(lasts[i]) != node then old(lasts[i])
                                                else if |old(members[i])| == 1 then NULL
                                                else old(members[i])[|old(members[i])| - 2]]
    {
      ghost var ms := members;
      ghost var m := ms[i];
      ghost var lasts0 := lasts[..];
      ghost var j :| 0 <= j < |m| && m[j] == node;
      RingsRemove(ms, lasts0, next[..], prev[..], i, j);
      var last := lasts[i];
      ghost var last' := if node != last then last else if prev[last] == last then NULL else prev[last];
      var p := prev[node];
      var q := next[node];
      if node == last {
        var secondLast := prev[last];
        if last == secondLast {
          lasts[i] := NULL;
        } else {
          lasts[i] := secondLast;
        }
      }
      assert lasts[..] == lasts0[i := last'];
      Splice(p, q);
      members := ms[i := Without(m, j)];
      assert members == ms[i := Without(m, j)] && m[j] == node;
    }

    /** The two link writes of Remove: prev.next = next and next.prev = prev. */
    method Splice(p: int, q: int)
      requires 0 <= p < next.Length && 0 <= q < prev.Length && next != prev
      modifies next, prev
      ensures next[..] == old(next[..])[p := q]
      ensures prev[..] == old(prev[..])[q := p]
    {
      next[p] := q;
      prev[q] := p;
    }

    /** Range(node): the other members of list i, following next from node.next until node comes round again. */
    method OtherNodes(i: int, node: int) returns (others: seq<int>)
      requires Valid() && 0 <= i < |members| && node in members[i]
      ensures forall j :: 0 <= j < |members[i]| && members[i][j] == node ==> others == After(members[i], j)
      ensures node !in others && |others| == |members[i]| - 1
      ensures forall k :: k in members[i] <==> k in others || k == node
      ensures Distinct(others)
    {
      ghost var m := members[i];
      assert RingOk(m, lasts[..][i], next[..], prev[..]);
      ghost var j :| 0 <= j < |m| && m[j] == node;
      AfterProps(m, j);
      AfterDistinct(m, j);
      others := Walk(node, m, j);
    }

    /** The iteration of Range over ring m, starting after its element j. */
    method Walk(node: int, ghost m: seq<int>, ghost j: nat) returns (others: seq<int>)
      requires j < |m| && m[j] == node && Distinct(m)
      requires forall x :: 0 <= x < |m| ==> 0 <= m[x] < next.Length
      requires forall x :: 0 <= x < |m| ==> next[m[x]] == m[Succ(x, |m|)]
      ensures others == After(m, j)
    {
      ghost var after := After(m, j);
      others := [];
      var it := next[node];
      ghost var ci := Succ(j, |m|);
      while it != node
        invariant |others| < |m|
        invariant ci == (if j + 1 + |others| < |m| then j + 1 + |others| else j + 1 + |others| - |m|)
        invariant it == m[ci]
        invariant others == after[..|others|]
        decreases |m| - |others|
      {
        assert ci != j;
        others := others + [it];
        it := next[it];
        ci := Succ(ci, |m|);
      }
      assert others == after;
    }
  }
}
