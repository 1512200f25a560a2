/**
 * The fixed-size union-find structure of src/disjoint_set.rs: a parent-pointer
 * forest in which an element whose parent is itself is a root.
 */
module DisjointSets {

  /**
   * The representatives after `unite` links the class of representative `rx`
   * under `ry`: every element whose representative was `rx` now has `ry`.
   */
  function Relabel(roots: seq<nat>, rx: nat, ry: nat): (r: seq<nat>)
    ensures |r| == |roots|
  {
    seq(|roots|, z requires 0 <= z < |roots| => if roots[z] == rx then ry else roots[z])
  }

  /**
   * The partition view of `Relabel`: two elements end up in the same class
   * exactly when they were already together, or each of them lay in one of
   * the two merged classes; elements outside the class of `rx` keep their
   * representative, and joining a class with itself changes nothing.
   */
  lemma RelabelJoins(roots: seq<nat>, rx: nat, ry: nat)
    ensures var r := Relabel(roots, rx, ry);
      && (forall a, b :: 0 <= a < |roots| && 0 <= b < |roots| ==>
            (r[a] == r[b] <==> roots[a] == roots[b] || ((roots[a] == rx || roots[a] == ry) && (roots[b] == rx || roots[b] == ry))))
      && (forall a :: 0 <= a < |roots| && roots[a] != rx ==> r[a] == roots[a])
      && (rx == ry ==> r == roots)
  {
  }

  /**
   * The forest invariant over a parent vector `p`: `ro` gives each element's
   * root and `rk` a rank that strictly decreases along every parent edge.
   */
  ghost predicate Forest(p: seq<nat>, ro: seq<nat>, rk: seq<nat>)
  {
    && |ro| == |rk| == |p|
    && (forall x :: 0 <= x < |p| ==> p[x] < |p| && ro[x] < |p|)
    && (forall x :: 0 <= x < |p| ==> p[ro[x]] == ro[x])
    && (forall x :: 0 <= x < |p| && p[x] == x ==> ro[x] == x)
    && (forall x :: 0 <= x < |p| && p[x] != x ==> rk[p[x]] < rk[x] && ro[p[x]] == ro[x])
  }

  /** The root of a non-root element has strictly smaller rank. */
  lemma {:induction false} RankAboveRoot(p: seq<nat>, ro: seq<nat>, rk: seq<nat>, x: nat)
    requires Forest(p, ro, rk) && x < |p| && p[x] != x
    ensures rk[ro[x]] < rk[x]
    decreases rk[x]
  {
    var q := p[x];
    if p[q] != q {
      RankAboveRoot(p, ro, rk, q);
    }
  }

  /** Pointing one element straight at its root keeps the forest invariant. */
  lemma RepointKeepsForest(p: seq<nat>, ro: seq<nat>, rk: seq<nat>, i: nat)
    requires Forest(p, ro, rk) && i < |p|
    ensures Forest(p[i := ro[i]], ro, rk)
  {
    if p[i] != i {
      RankAboveRoot(p, ro, rk, i);
    }
  }

  /** The ranks after linking root `rx` under root `ry`: the class of `rx` is lifted above `ry`. */
  function LinkRank(ro: seq<nat>, rk: seq<nat>, rx: nat, ry: nat): seq<nat>
    requires |ro| == |rk| && ry < |rk|
  {
    seq(|rk|, z requires 0 <= z < |rk| => if ro[z] == rx && rx != ry then rk[z] + rk[ry] + 1 else rk[z])
  }

  /** Linking one root under another keeps the forest invariant, with the joined roots. */
  lemma LinkKeepsForest(p: seq<nat>, ro: seq<nat>, rk: seq<nat>, rx: nat, ry: nat)
    requires Forest(p, ro, rk) && rx < |p| && ry < |p| && p[rx] == rx && p[ry] == ry
    ensures Forest(p[rx := ry], Relabel(ro, rx, ry), LinkRank(ro, rk, rx, ry))
  {
    if rx == ry {
      assert p[rx := ry] == p;
      assert Relabel(ro, rx, ry) == ro;
      assert LinkRank(ro, rk, rx, ry) == rk;
    } else {
      var q, ro', rk' := p[rx := ry], Relabel(ro, rx, ry), LinkRank(ro, rk, rx, ry);
      forall x | 0 <= x < |q|
        ensures q[ro'[x]] == ro'[x]
      {
        if ro[x] != rx {
          assert ro'[x] == ro[x];
        }
      }
      forall x | 0 <= x < |q| && q[x] != x
        ensures rk'[q[x]] < rk'[x] && ro'[q[x]] == ro'[x]
      {
        if x == rx {
          assert ro[ry] == ry;
        } else {
          assert q[x] == p[x] && ro[p[x]] == ro[x];
        }
      }
    }
  }

  class DisjointSet {
    /** parent[x] == x marks a root. */
    var parent: array<nat>
    /** Ghost partition: the root every element reaches. */
    ghost var rootOf: seq<nat>
    /** Ghost ranking: strictly decreases along every parent edge, so `Root` terminates. */
    ghost var rank: seq<nat>

    ghost predicate Valid()
      reads this, parent
    {
      Forest(parent[..], rootOf, rank)
    }

    /** `new(n)`: n singleton classes, every element its own parent. */
    constructor (n: nat)
      ensures Valid() && fresh(parent) && parent.Length == n
      ensures rootOf == seq(n, i => i)
      ensures forall x :: 0 <= x < n ==> parent[x] == x && Root(x) == x
      ensures forall x, y :: 0 <= x < n && 0 <= y < n ==> (IsSame(x, y) <==> x == y)
    {
      parent := new nat[n](i => i);
      rootOf := seq(n, i => i);
      rank := seq(n, i => 0);
    }

    /** `root(x)`: follow parent pointers to the fixed point. */
    function Root(x: nat): (r: nat)
      reads this, parent
      requires Valid() && x < parent.Length
      ensures r < parent.Length && parent[r] == r
      ensures r == rootOf[x]
      decreases rank[x]
    {
      if parent[x] == x then x else Root(parent[x])
    }

    /** `is_same(x, y)`: both elements reach the same root. */
    function IsSame(x: nat, y: nat): (b: bool)
      reads this, parent
      requires Valid() && x < parent.Length && y < parent.Length
      ensures b <==> rootOf[x] == rootOf[y]
    {
      Root(x) == Root(y)
    }

    /** A root is its own root, so `root` is idempotent. */
    lemma RootIdempotent(x: nat)
      requires Valid() && x < parent.Length
      ensures Root(Root(x)) == Root(x)
    {
    }

    /**
     * `unite(x, y)`: links the root of x under the root of y. Only that one
     * parent entry changes, and the partition becomes the join of the two
     * classes.
     */
    method Unite(x: nat, y: nat)
      requires Valid() && x < parent.Length && y < parent.Length
      modifies this, parent
      ensures Valid() && parent == old(parent)
      ensures parent[old(Root(x))] == old(Root(y))
      ensures forall z :: 0 <= z < parent.Length && z != old(Root(x)) ==> parent[z] == old(parent[z])
      ensures rootOf == Relabel(old(rootOf), old(rootOf[x]), old(rootOf[y]))
      ensures IsSame(x, y)
      ensures old(IsSame(x, y)) ==> parent[..] == old(parent[..]) && rootOf == old(rootOf)
      ensures forall a, b :: 0 <= a < parent.Length && 0 <= b < parent.Length ==>
        (IsSame(a, b) <==>
          old(IsSame(a, b)) ||
          ((old(IsSame(a, x)) || old(IsSame(a, y))) && (old(IsSame(b, x)) || old(IsSame(b, y)))))
    {
      var rootX := Root(x);
      var rootY := Root(y);
      ghost var before := parent[..];
      LinkKeepsForest(before, rootOf, rank, rootX, rootY);
      RelabelJoins(rootOf, rootX, rootY);
      parent[rootX] := rootY;
      assert parent[..] == before[rootX := rootY];
      rootOf, rank := Relabel(rootOf, rootX, rootY), LinkRank(rootOf, rank, rootX, rootY);
    }

    /**
     * Path compression (`compress`, called by create_cluster): every element
     * is repointed at its root. Roots, and so every `is_same` answer, are
     * unchanged.
     */
    method Compress()
      requires Valid()
      modifies parent
      ensures Valid()
      ensures forall x :: 0 <= x < parent.Length ==> parent[x] == rootOf[x]
      ensures forall x :: 0 <= x < parent.Length ==> Root(x) == old(Root(x))
    {
      var i := 0;
      while i < parent.Length
        invariant 0 <= i <= parent.Length
        invariant Valid()
        invariant forall j :: 0 <= j < i ==> parent[j] == rootOf[j]
      {
        RepointKeepsForest(parent[..], rootOf, rank, i);
        parent[i] := Root(i);
        i := i + 1;
      }
    }
  }

  /**
   * The unit test of the union-find: five singletons, three unions giving
   * {0, 1, 2} and {3, 4}, then a fourth joining everything.
   */
  method UniteScenario() returns (sameZeroTwo: bool, sameZeroThree: bool, sameZeroFour: bool)
    ensures sameZeroTwo && !sameZeroThree && sameZeroFour
  {
    ScenarioRelabels();
    var ds := ScenarioFirstUnions();
    sameZeroTwo := ds.IsSame(0, 2);
    sameZeroThree := ds.IsSame(0, 3);
    ds.Unite(0, 3);
    sameZeroFour := ds.IsSame(0, 4);
  }

  /** The first three unions of the unit test. */
  method ScenarioFirstUnions() returns (ds: DisjointSet)
    ensures fresh(ds) && fresh(ds.parent)
    ensures ds.Valid() && ds.parent.Length == 5 && ds.rootOf == [2, 2, 2, 4, 4]
  {
    ScenarioRelabels();
    ds := new DisjointSet(5);
    assert ds.rootOf == [0, 1, 2, 3, 4];
    ds.Unite(0, 1);
    ds.Unite(3, 4);
    ds.Unite(1, 2);
  }

  /** The representatives after each union of the unit test. */
  lemma ScenarioRelabels()
    ensures Relabel([0, 1, 2, 3, 4], 0, 1) == [1, 1, 2, 3, 4]
    ensures Relabel([1, 1, 2, 3, 4], 3, 4) == [1, 1, 2, 4, 4]
    ensures Relabel([1, 1, 2, 4, 4], 1, 2) == [2, 2, 2, 4, 4]
    ensures Relabel([2, 2, 2, 4, 4], 2, 4) == [4, 4, 4, 4, 4]
  {
  }
}
