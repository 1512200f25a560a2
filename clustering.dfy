/**
 * `AtlasPacker::create_cluster` of src/pack.rs: textures whose boxes overlap,
 * directly or through a chain of overlaps, are merged into one cluster with a
 * toplevel region and one child per member.
 */
module Clustering {
  import opened Wrappers
  import opened Enumeration
  import opened DisjointSets

  /**
   * The operations of `PolygonMappedTexture` and `ToplevelTexture` that
   * clustering calls. Their definitions are not part of this model.
   */
  datatype TextureOps<!T, !Top, Ch> = TextureOps(
    bboxOverlaps: (T, T) -> bool,
    newToplevel: T -> Top,
    expand: (Top, T) -> Option<Top>,
    getChild: (Top, T) -> Ch)

  /** `Cluster`: a toplevel region and its `(texture id, child texture)` pairs. */
  datatype Cluster<Top, Ch> = Cluster(toplevel: Top, children: seq<(string, Ch)>)

  /** The panics of packing. */
  datatype PackError = ToplevelUnwrapNone   // the toplevel fold of a cluster ended in `None`

  /** The textures in key order: position i holds the texture of `ids[i]`. */
  function InOrder<T>(textures: map<string, T>, ids: seq<string>): (texs: seq<T>)
    requires forall id :: id in ids ==> id in textures
    ensures |texs| == |ids|
    ensures forall i :: 0 <= i < |ids| ==> texs[i] == textures[ids[i]]
  {
    seq(|ids|, i requires 0 <= i < |ids| => textures[ids[i]])
  }

  // ---------------------------------------------------------------------
  // The overlap graph the pairwise pass explores.

  /** The pairwise pass tests each pair i < j once, as `bbox_overlaps(texs[i], texs[j])`. */
  ghost predicate Linked<T>(texs: seq<T>, ov: (T, T) -> bool, i: nat, j: nat)
  {
    (i < j < |texs| && ov(texs[i], texs[j])) || (j < i < |texs| && ov(texs[j], texs[i]))
  }

  ghost predicate IsPath<T>(texs: seq<T>, ov: (T, T) -> bool, p: seq<nat>)
  {
    && |p| > 0
    && (forall k :: 0 <= k < |p| ==> p[k] < |texs|)
    && (forall k :: 0 <= k < |p| - 1 ==> Linked(texs, ov, p[k], p[k + 1]))
  }

  /** a and b are joined by a chain of overlapping pairs. */
  ghost predicate Connected<T>(texs: seq<T>, ov: (T, T) -> bool, a: nat, b: nat)
  {
    exists p :: IsPath(texs, ov, p) && p[0] == a && p[|p| - 1] == b
  }

  lemma ConnectedRefl<T>(texs: seq<T>, ov: (T, T) -> bool, a: nat)
    requires a < |texs|
    ensures Connected(texs, ov, a, a)
  {
    assert IsPath(texs, ov, [a]);
  }

  lemma LinkedConnected<T>(texs: seq<T>, ov: (T, T) -> bool, a: nat, b: nat)
    requires Linked(texs, ov, a, b)
    ensures Connected(texs, ov, a, b)
  {
    assert IsPath(texs, ov, [a, b]);
  }

  lemma ConnectedSym<T>(texs: seq<T>, ov: (T, T) -> bool, a: nat, b: nat)
    requires Connected(texs, ov, a, b)
    ensures Connected(texs, ov, b, a)
  {
    var p :| IsPath(texs, ov, p) && p[0] == a && p[|p| - 1] == b;
    var q := seq(|p|, k requires 0 <= k < |p| => p[|p| - 1 - k]);
    forall k | 0 <= k < |q| - 1
      ensures Linked(texs, ov, q[k], q[k + 1])
    {
      assert Linked(texs, ov, p[|p| - 2 - k], p[|p| - 1 - k]);
    }
    assert IsPath(texs, ov, q);
  }

  lemma ConnectedTrans<T>(texs: seq<T>, ov: (T, T) -> bool, a: nat, b: nat, c: nat)
    requires Connected(texs, ov, a, b) && Connected(texs, ov, b, c)
    ensures Connected(texs, ov, a, c)
  {
    var p :| IsPath(texs, ov, p) && p[0] == a && p[|p| - 1] == b;
    var q :| IsPath(texs, ov, q) && q[0] == b && q[|q| - 1] == c;
    var r := p + q[1..];
    forall k | 0 <= k < |r| - 1
      ensures Linked(texs, ov, r[k], r[k + 1])
    {
      if k < |p| - 1 {
        assert r[k] == p[k] && r[k + 1] == p[k + 1];
      } else {
        assert r[k] == q[k - |p| + 1] && r[k + 1] == q[k - |p| + 2];
      }
    }
    assert IsPath(texs, ov, r);
  }

  /** If overlapping textures always agree on `key` (their image path, say), so do connected ones. */
  lemma {:induction false} ConnectedSharesKey<T, K>(texs: seq<T>, ov: (T, T) -> bool, key: T -> K, p: seq<nat>)
    requires forall s, t :: ov(s, t) ==> key(s) == key(t)
    requires IsPath(texs, ov, p)
    ensures key(texs[p[0]]) == key(texs[p[|p| - 1]])
    decreases |p|
  {
    if |p| > 1 {
      var q := p[..|p| - 1];
      assert IsPath(texs, ov, q) by {
        forall k | 0 <= k < |q| - 1
          ensures Linked(texs, ov, q[k], q[k + 1])
        {
          assert Linked(texs, ov, p[k], p[k + 1]);
        }
      }
      ConnectedSharesKey(texs, ov, key, q);
      assert Linked(texs, ov, p[|p| - 2], p[|p| - 1]);
    }
  }

  // ---------------------------------------------------------------------
  // The union-find partition against the overlap graph.

  /** Elements with the same representative are connected. */
  ghost predicate Sound<T>(texs: seq<T>, ov: (T, T) -> bool, roots: seq<nat>)
  {
    forall a, b :: 0 <= a < |roots| && 0 <= b < |roots| && roots[a] == roots[b] ==> Connected(texs, ov, a, b)
  }

  /** Uniting the ends of a tested pair keeps the partition sound. */
  lemma RelabelKeepsSound<T>(texs: seq<T>, ov: (T, T) -> bool, roots: seq<nat>, i: nat, j: nat)
    requires |roots| == |texs| && Sound(texs, ov, roots)
    requires i < |texs| && j < |texs| && Linked(texs, ov, i, j)
    ensures Sound(texs, ov, Relabel(roots, roots[i], roots[j]))
  {
    var joined := Relabel(roots, roots[i], roots[j]);
    RelabelJoins(roots, roots[i], roots[j]);
    forall a, b | 0 <= a < |joined| && 0 <= b < |joined| && joined[a] == joined[b]
      ensures Connected(texs, ov, a, b)
    {
      if roots[a] != roots[b] {
        LinkedConnected(texs, ov, i, j);
        ConnectedSym(texs, ov, i, j);
        // a and b lie in the classes of i and j, one each.
        var ea := if roots[a] == roots[i] then i else j;
        var eb := if roots[b] == roots[i] then i else j;
        assert Connected(texs, ov, a, ea);
        assert Connected(texs, ov, b, eb);
        ConnectedSym(texs, ov, b, eb);
        ConnectedTrans(texs, ov, a, ea, eb);
        ConnectedTrans(texs, ov, a, eb, b);
      }
    }
  }

  /** When every tested overlapping pair shares a representative, so does every path. */
  lemma {:induction false} PathSameRoot<T>(texs: seq<T>, ov: (T, T) -> bool, roots: seq<nat>, p: seq<nat>)
    requires |roots| == |texs| && IsPath(texs, ov, p)
    requires forall a, b :: 0 <= a < b < |texs| && ov(texs[a], texs[b]) ==> roots[a] == roots[b]
    ensures roots[p[0]] == roots[p[|p| - 1]]
    decreases |p|
  {
    if |p| > 1 {
      var q := p[..|p| - 1];
      assert IsPath(texs, ov, q) by {
        forall k | 0 <= k < |q| - 1
          ensures Linked(texs, ov, q[k], q[k + 1])
        {
          assert Linked(texs, ov, p[k], p[k + 1]);
        }
      }
      PathSameRoot(texs, ov, roots, q);
      assert Linked(texs, ov, p[|p| - 2], p[|p| - 1]);
    }
  }

  /** Every pair already together in `r1` is together in `r2`. */
  ghost predicate Coarser(r1: seq<nat>, r2: seq<nat>)
  {
    && |r1| == |r2|
    && forall a, b :: 0 <= a < |r1| && 0 <= b < |r1| && r1[a] == r1[b] ==> r2[a] == r2[b]
  }

  /** Pairs (a, b) with a < `rows`, or a == `rows` and b < `cols`, that overlap share a root. */
  ghost predicate UnitedBefore<T>(texs: seq<T>, ov: (T, T) -> bool, roots: seq<nat>, rows: nat, cols: nat)
    requires |roots| == |texs|
  {
    && (forall a, b :: 0 <= a < rows && a < b < |texs| && ov(texs[a], texs[b]) ==> roots[a] == roots[b])
    && (forall b :: rows < b < cols && b < |texs| && ov(texs[rows], texs[b]) ==> roots[rows] == roots[b])
  }

  lemma CoarserKeepsUnited<T>(texs: seq<T>, ov: (T, T) -> bool, r1: seq<nat>, r2: seq<nat>, rows: nat, cols: nat)
    requires |r1| == |texs| && Coarser(r1, r2) && UnitedBefore(texs, ov, r1, rows, cols)
    ensures UnitedBefore(texs, ov, r2, rows, cols)
  {
  }

  /** Uniting an overlapping pair (i, j) keeps the partition sound and completes the pair. */
  lemma UniteStep<T>(texs: seq<T>, ov: (T, T) -> bool, roots: seq<nat>, i: nat, j: nat)
    requires |roots| == |texs| && i < j < |texs| && ov(texs[i], texs[j])
    requires Sound(texs, ov, roots) && UnitedBefore(texs, ov, roots, i, j)
    ensures Sound(texs, ov, Relabel(roots, roots[i], roots[j]))
    ensures UnitedBefore(texs, ov, Relabel(roots, roots[i], roots[j]), i, j + 1)
  {
    var joined := Relabel(roots, roots[i], roots[j]);
    RelabelJoins(roots, roots[i], roots[j]);
    RelabelKeepsSound(texs, ov, roots, i, j);
    assert Coarser(roots, joined);
    CoarserKeepsUnited(texs, ov, roots, joined, i, j);
  }

  /** The body of the inner loop, for one pair i < j. */
  method UniteIfOverlapping<T>(ds: DisjointSet, texs: seq<T>, ov: (T, T) -> bool, i: nat, j: nat)
    requires ds.Valid() && ds.parent.Length == |texs| && i < j < |texs|
    requires Sound(texs, ov, ds.rootOf) && UnitedBefore(texs, ov, ds.rootOf, i, j)
    modifies ds, ds.parent
    ensures ds.Valid() && ds.parent == old(ds.parent)
    ensures Sound(texs, ov, ds.rootOf) && UnitedBefore(texs, ov, ds.rootOf, i, j + 1)
  {
    if ov(texs[i], texs[j]) {
      ghost var before := ds.rootOf;
      ds.Unite(i, j);
      assert ds.rootOf == Relabel(before, before[i], before[j]);
      UniteStep(texs, ov, before, i, j);
    } else {
      SkipStep(texs, ov, ds.rootOf, i, j);
    }
  }

  /** A pair that does not overlap needs no union. */
  lemma SkipStep<T>(texs: seq<T>, ov: (T, T) -> bool, roots: seq<nat>, i: nat, j: nat)
    requires |roots| == |texs| && i < j < |texs| && !ov(texs[i], texs[j])
    requires UnitedBefore(texs, ov, roots, i, j)
    ensures UnitedBefore(texs, ov, roots, i, j + 1)
  {
  }

  /**
   * The nested loop of `create_cluster`: unite every pair i < j whose textures
   * overlap. Afterwards two elements share a root exactly when a chain of
   * overlapping pairs joins them.
   */
  method PairwiseUnion<T>(texs: seq<T>, ov: (T, T) -> bool) returns (ds: DisjointSet)
    ensures fresh(ds) && fresh(ds.parent)
    ensures ds.Valid() && ds.parent.Length == |texs|
    ensures forall a, b :: 0 <= a < |texs| && 0 <= b < |texs| ==>
      (ds.rootOf[a] == ds.rootOf[b] <==> Connected(texs, ov, a, b))
  {
    ds := new DisjointSet(|texs|);
    SingletonsSound(texs, ov, ds.rootOf);
    for i := 0 to |texs|
      invariant fresh(ds) && fresh(ds.parent)
      invariant ds.Valid() && ds.parent.Length == |texs|
      invariant Sound(texs, ov, ds.rootOf) && UnitedBefore(texs, ov, ds.rootOf, i, 0)
    {
      UniteRow(ds, texs, ov, i);
    }
    AllUnitedIsComplete(texs, ov, ds.rootOf);
  }

  /** The inner loop for one i: unite i with every later j whose texture overlaps it. */
  method UniteRow<T>(ds: DisjointSet, texs: seq<T>, ov: (T, T) -> bool, i: nat)
    requires ds.Valid() && ds.parent.Length == |texs| && i < |texs|
    requires Sound(texs, ov, ds.rootOf) && UnitedBefore(texs, ov, ds.rootOf, i, 0)
    modifies ds, ds.parent
    ensures ds.Valid() && ds.parent == old(ds.parent)
    ensures Sound(texs, ov, ds.rootOf) && UnitedBefore(texs, ov, ds.rootOf, i + 1, 0)
  {
    for j := i + 1 to |texs|
      invariant ds.Valid() && ds.parent == old(ds.parent)
      invariant Sound(texs, ov, ds.rootOf) && UnitedBefore(texs, ov, ds.rootOf, i, j)
    {
      UniteIfOverlapping(ds, texs, ov, i, j);
    }
    RowDone(texs, ov, ds.rootOf, i);
  }

  /** Once i has been tested against every later element, the next row can start. */
  lemma RowDone<T>(texs: seq<T>, ov: (T, T) -> bool, roots: seq<nat>, i: nat)
    requires |roots| == |texs| && i < |texs|
    requires UnitedBefore(texs, ov, roots, i, |texs|)
    ensures UnitedBefore(texs, ov, roots, i + 1, 0)
  {
  }

  /** The singleton partition is sound. */
  lemma SingletonsSound<T>(texs: seq<T>, ov: (T, T) -> bool, roots: seq<nat>)
    requires |roots| == |texs| && forall a :: 0 <= a < |roots| ==> roots[a] == a
    ensures Sound(texs, ov, roots)
  {
    forall a, b | 0 <= a < |roots| && 0 <= b < |roots| && roots[a] == roots[b]
      ensures Connected(texs, ov, a, b)
    {
      ConnectedRefl(texs, ov, a);
    }
  }

  /** Once every pair has been tested, a sound partition is exactly the connected components. */
  lemma AllUnitedIsComplete<T>(texs: seq<T>, ov: (T, T) -> bool, roots: seq<nat>)
    requires |roots| == |texs| && Sound(texs, ov, roots) && UnitedBefore(texs, ov, roots, |texs|, 0)
    ensures forall a, b :: 0 <= a < |texs| && 0 <= b < |texs| ==>
      (roots[a] == roots[b] <==> Connected(texs, ov, a, b))
  {
    forall a, b | 0 <= a < |texs| && 0 <= b < |texs| && Connected(texs, ov, a, b)
      ensures roots[a] == roots[b]
    {
      var p :| IsPath(texs, ov, p) && p[0] == a && p[|p| - 1] == b;
      PathSameRoot(texs, ov, roots, p);
    }
  }

  // ---------------------------------------------------------------------
  // Grouping ids by root.

  /** The ids at positions below m whose representative is r, in position order. */
  function MembersOf(ids: seq<string>, roots: seq<nat>, r: nat, m: nat): seq<string>
    requires m <= |ids| == |roots|
  {
    if m == 0 then [] else MembersOf(ids, roots, r, m - 1) + (if roots[m - 1] == r then [ids[m - 1]] else [])
  }

  /** The ids at positions below m that are connected to position k, in position order. */
  ghost function ClassOf<T>(ids: seq<string>, texs: seq<T>, ov: (T, T) -> bool, k: nat, m: nat): (c: seq<string>)
    requires m <= |ids| == |texs|
    ensures forall id :: id in c ==> id in ids
  {
    if m == 0 then []
    else ClassOf(ids, texs, ov, k, m - 1) + (if Connected(texs, ov, m - 1, k) then [ids[m - 1]] else [])
  }

  /** When representatives agree exactly on connected pairs, grouping by root yields the connected class. */
  lemma {:induction false} MembersAreClass<T>(
    ids: seq<string>, texs: seq<T>, ov: (T, T) -> bool, roots: seq<nat>, k: nat, m: nat)
    requires m <= |ids| == |texs| == |roots| && k < |ids|
    requires forall a, b :: 0 <= a < |roots| && 0 <= b < |roots| ==>
      (roots[a] == roots[b] <==> Connected(texs, ov, a, b))
    ensures MembersOf(ids, roots, roots[k], m) == ClassOf(ids, texs, ov, k, m)
    decreases m
  {
    if m > 0 {
      MembersAreClass(ids, texs, ov, roots, k, m - 1);
    }
  }

  /**
   * The grouping loop of `create_cluster`: each id is pushed onto the entry
   * of its root. The keys are exactly the roots, and each entry lists the ids
   * with that root in key order.
   */
  method GroupByRoot(ds: DisjointSet, ids: seq<string>) returns (groups: map<nat, seq<string>>)
    requires ds.Valid() && ds.parent.Length == |ids|
    ensures groups.Keys == RootsBelow(ds.rootOf, |ids|)
    ensures forall r :: r in groups ==> groups[r] == MembersOf(ids, ds.rootOf, r, |ids|)
  {
    ghost var roots := ds.rootOf;
    groups := map[];
    for i := 0 to |ids|
      invariant Grouped(ids, roots, groups, i)
    {
      var r := ds.Root(i);
      var members := if r in groups then groups[r] else [];
      GroupStep(ids, roots, groups, i);
      groups := groups[r := members + [ids[i]]];
    }
  }

  /** `groups` maps each root of the positions below m to the ids with that root, in position order. */
  ghost predicate Grouped(ids: seq<string>, roots: seq<nat>, groups: map<nat, seq<string>>, m: nat)
    requires m <= |ids| == |roots|
  {
    && groups.Keys == RootsBelow(roots, m)
    && forall r :: (if r in groups then groups[r] else []) == MembersOf(ids, roots, r, m)
  }

  /** Pushing the id at position i onto the entry of its root extends the grouping by one position. */
  lemma GroupStep(ids: seq<string>, roots: seq<nat>, groups: map<nat, seq<string>>, i: nat)
    requires i < |ids| == |roots|
    requires Grouped(ids, roots, groups, i)
    ensures Grouped(ids, roots, groups[roots[i] := (if roots[i] in groups then groups[roots[i]] else []) + [ids[i]]], i + 1)
  {
    var r := roots[i];
    var next := groups[r := (if r in groups then groups[r] else []) + [ids[i]]];
    RootsBelowStep(roots, i);
    forall r' ensures (if r' in next then next[r'] else []) == MembersOf(ids, roots, r', i + 1) {
      MembersStep(ids, roots, groups, i, r');
    }
  }

  /** The entry of one root after pushing the id at position i. */
  lemma MembersStep(ids: seq<string>, roots: seq<nat>, groups: map<nat, seq<string>>, i: nat, r': nat)
    requires i < |ids| == |roots|
    requires (if r' in groups then groups[r'] else []) == MembersOf(ids, roots, r', i)
    ensures var next := groups[roots[i] := (if roots[i] in groups then groups[roots[i]] else []) + [ids[i]]];
      (if r' in next then next[r'] else []) == MembersOf(ids, roots, r', i + 1)
  {
  }

  lemma RootsBelowStep(roots: seq<nat>, i: nat)
    requires i < |roots|
    ensures RootsBelow(roots, i + 1) == RootsBelow(roots, i) + {roots[i]}
  {
    forall x
      ensures x in RootsBelow(roots, i + 1) <==> x in RootsBelow(roots, i) || x == roots[i]
    {
      if x in RootsBelow(roots, i + 1) && x != roots[i] {
        var k :| 0 <= k < i + 1 && roots[k] == x;
        assert k < i;
      }
    }
  }

  /** The representatives of the positions below m. */
  ghost function RootsBelow(roots: seq<nat>, m: nat): set<nat>
    requires m <= |roots|
  {
    set k | 0 <= k < m :: roots[k]
  }

  // ---------------------------------------------------------------------
  // Toplevel regions and children.

  /**
   * The toplevel fold: `None` starts a fresh toplevel from the next texture,
   * `Some` is widened by `expand`, which may itself give `None`.
   */
  function FoldToplevel<T, Top, Ch>(ops: TextureOps<T, Top, Ch>, textures: map<string, T>, members: seq<string>)
    : Option<Top>
    requires forall id :: id in members ==> id in textures
  {
    if members == [] then None
    else
      var last := members[|members| - 1];
      match FoldToplevel(ops, textures, members[..|members| - 1])
      case Some(top) => ops.expand(top, textures[last])
      case None => Some(ops.newToplevel(textures[last]))
  }

  /** When `expand` never fails, the fold gives a toplevel for every non-empty member list. */
  lemma FoldToplevelSome<T, Top, Ch>(ops: TextureOps<T, Top, Ch>, textures: map<string, T>, members: seq<string>)
    requires forall id :: id in members ==> id in textures
    requires forall top, t :: ops.expand(top, t).Some?
    ensures members != [] <==> FoldToplevel(ops, textures, members).Some?
  {
  }

  function ChildIds<Ch>(children: seq<(string, Ch)>): (ids: seq<string>)
    ensures |ids| == |children|
  {
    seq(|children|, i requires 0 <= i < |children| => children[i].0)
  }

  /**
   * One entry of the cluster map: the folded toplevel (the `.unwrap()` panics
   * when it is `None`) and, for each member in order, its id paired with its
   * child texture under that toplevel.
   */
  function BuildCluster<T, Top, Ch>(ops: TextureOps<T, Top, Ch>, textures: map<string, T>, members: seq<string>)
    : (r: Result<Cluster<Top, Ch>, PackError>)
    requires forall id :: id in members ==> id in textures
    ensures r.Success? <==> FoldToplevel(ops, textures, members).Some?
    ensures r.Success? ==> r.value.toplevel == FoldToplevel(ops, textures, members).value
    ensures r.Success? ==> ChildIds(r.value.children) == members
    ensures r.Success? ==> forall i :: 0 <= i < |members| ==>
      r.value.children[i].1 == ops.getChild(r.value.toplevel, textures[members[i]])
  {
    match FoldToplevel(ops, textures, members)
    case None => Failure(ToplevelUnwrapNone)
    case Some(top) =>
      var children := seq(|members|, i requires 0 <= i < |members| =>
        (members[i], ops.getChild(top, textures[members[i]])));
      assert ChildIds(children) == members;
      Success(Cluster(top, children))
  }

  /** The `filter_map ... collect` over the groups: one cluster per group, or the first unwrap panic. */
  function BuildClusters<T, Top, Ch>(ops: TextureOps<T, Top, Ch>, textures: map<string, T>, groups: map<nat, seq<string>>)
    : (r: Result<map<nat, Cluster<Top, Ch>>, PackError>)
    requires forall k, id :: k in groups && id in groups[k] ==> id in textures
    ensures r.Success? <==> forall k :: k in groups ==> FoldToplevel(ops, textures, groups[k]).Some?
    ensures r.Success? ==> r.value.Keys == groups.Keys
    ensures r.Success? ==> forall k :: k in groups ==> BuildCluster(ops, textures, groups[k]) == Success(r.value[k])
  {
    if forall k :: k in groups ==> BuildCluster(ops, textures, groups[k]).Success? then
      Success(map k | k in groups :: BuildCluster(ops, textures, groups[k]).value)
    else
      Failure(ToplevelUnwrapNone)
  }

  // ---------------------------------------------------------------------
  // The result of create_cluster.

  /**
   * `clusters` is the clustering of the textures listed by `ids`: each key is
   * a position whose cluster is built from exactly the ids connected to it,
   * every position is connected to some key, and no two keys are connected.
   */
  ghost predicate IsClustering<T, Top, Ch>(
    ops: TextureOps<T, Top, Ch>, textures: map<string, T>, ids: seq<string>, clusters: map<nat, Cluster<Top, Ch>>)
    requires forall id :: id in ids ==> id in textures
  {
    var texs := InOrder(textures, ids);
    var ov := ops.bboxOverlaps;
    && (forall k :: k in clusters ==>
          k < |ids| && BuildCluster(ops, textures, ClassOf(ids, texs, ov, k, |ids|)) == Success(clusters[k]))
    && (forall i :: 0 <= i < |ids| ==> InSomeCluster(texs, ov, clusters, i))
    && (forall k1, k2 :: k1 in clusters && k2 in clusters && k1 != k2 ==> !Connected(texs, ov, k1, k2))
  }

  /** Position i is connected to the key of some cluster. */
  ghost predicate InSomeCluster<T, C>(texs: seq<T>, ov: (T, T) -> bool, clusters: map<nat, C>, i: nat)
  {
    exists k :: k in clusters && Connected(texs, ov, i, k)
  }

  /** create_cluster panics exactly when the toplevel fold of some class ends in `None`. */
  ghost predicate IsClusteringResult<T, Top, Ch>(
    ops: TextureOps<T, Top, Ch>, textures: map<string, T>, ids: seq<string>,
    r: Result<map<nat, Cluster<Top, Ch>>, PackError>)
    requires forall id :: id in ids ==> id in textures
  {
    var texs := InOrder(textures, ids);
    && (r.Failure? <==>
          exists i :: 0 <= i < |ids| && FoldToplevel(ops, textures, ClassOf(ids, texs, ops.bboxOverlaps, i, |ids|)).None?)
    && (r.Success? ==> IsClustering(ops, textures, ids, r.value))
  }

  /**
   * `create_cluster` with the texture ids in the iteration order `ids`:
   * pairwise union, compression, grouping by root, then one cluster per group.
   */
  method ClusterInOrder<T, Top, Ch>(ops: TextureOps<T, Top, Ch>, textures: map<string, T>, ids: seq<string>)
    returns (r: Result<map<nat, Cluster<Top, Ch>>, PackError>)
    requires IsEnumeration(ids, textures.Keys)
    ensures IsClusteringResult(ops, textures, ids, r)
  {
    var texs := InOrder(textures, ids);
    var ds := PairwiseUnion(texs, ops.bboxOverlaps);
    ds.Compress();
    var groups := GroupByRoot(ds, ids);
    ClassesOfRoots(ops, textures, ids, ds.rootOf);
    r := BuildClusters(ops, textures, groups);
    GroupsAreClasses(ops, textures, ids, ds.rootOf, groups, r);
  }

  /** The facts about a root-grouping that the clustering needs, per position. */
  lemma ClassesOfRoots<T, Top, Ch>(ops: TextureOps<T, Top, Ch>, textures: map<string, T>, ids: seq<string>, roots: seq<nat>)
    requires forall id :: id in ids ==> id in textures
    requires |roots| == |ids|
    requires forall x :: 0 <= x < |roots| ==> roots[x] < |roots| && roots[roots[x]] == roots[x]
    requires forall a, b :: 0 <= a < |ids| && 0 <= b < |ids| ==>
      (roots[a] == roots[b] <==> Connected(InOrder(textures, ids), ops.bboxOverlaps, a, b))
    ensures forall i :: 0 <= i < |ids| ==>
      MembersOf(ids, roots, roots[i], |ids|) == ClassOf(ids, InOrder(textures, ids), ops.bboxOverlaps, i, |ids|)
      && ClassOf(ids, InOrder(textures, ids), ops.bboxOverlaps, roots[i], |ids|)
         == ClassOf(ids, InOrder(textures, ids), ops.bboxOverlaps, i, |ids|)
      && Connected(InOrder(textures, ids), ops.bboxOverlaps, i, roots[i])
  {
    var texs := InOrder(textures, ids);
    forall i | 0 <= i < |ids|
      ensures MembersOf(ids, roots, roots[i], |ids|) == ClassOf(ids, texs, ops.bboxOverlaps, i, |ids|)
      ensures ClassOf(ids, texs, ops.bboxOverlaps, roots[i], |ids|) == ClassOf(ids, texs, ops.bboxOverlaps, i, |ids|)
      ensures Connected(texs, ops.bboxOverlaps, i, roots[i])
    {
      MembersAreClass(ids, texs, ops.bboxOverlaps, roots, i, |ids|);
      MembersAreClass(ids, texs, ops.bboxOverlaps, roots, roots[i], |ids|);
    }
  }

  lemma GroupsAreClasses<T, Top, Ch>(
    ops: TextureOps<T, Top, Ch>, textures: map<string, T>, ids: seq<string>, roots: seq<nat>,
    groups: map<nat, seq<string>>, r: Result<map<nat, Cluster<Top, Ch>>, PackError>)
    requires forall id :: id in ids ==> id in textures
    requires |roots| == |ids|
    requires forall x :: 0 <= x < |roots| ==> roots[x] < |roots| && roots[roots[x]] == roots[x]
    requires forall a, b :: 0 <= a < |ids| && 0 <= b < |ids| ==>
      (roots[a] == roots[b] <==> Connected(InOrder(textures, ids), ops.bboxOverlaps, a, b))
    requires forall i :: 0 <= i < |ids| ==>
      MembersOf(ids, roots, roots[i], |ids|) == ClassOf(ids, InOrder(textures, ids), ops.bboxOverlaps, i, |ids|)
      && ClassOf(ids, InOrder(textures, ids), ops.bboxOverlaps, roots[i], |ids|)
         == ClassOf(ids, InOrder(textures, ids), ops.bboxOverlaps, i, |ids|)
      && Connected(InOrder(textures, ids), ops.bboxOverlaps, i, roots[i])
    requires groups.Keys == RootsBelow(roots, |ids|)
    requires forall k :: k in groups ==> groups[k] == MembersOf(ids, roots, k, |ids|)
    requires forall k, id :: k in groups && id in groups[k] ==> id in textures
    requires r == BuildClusters(ops, textures, groups)
    ensures IsClusteringResult(ops, textures, ids, r)
  {
    var texs := InOrder(textures, ids);
    var ov := ops.bboxOverlaps;
    forall k | k in groups
      ensures k < |ids| && roots[k] == k && groups[k] == ClassOf(ids, texs, ov, k, |ids|)
    {
      var i :| 0 <= i < |ids| && roots[i] == k;
    }
    if r.Failure? {
      var k :| k in groups && FoldToplevel(ops, textures, groups[k]).None?;
      assert FoldToplevel(ops, textures, ClassOf(ids, texs, ov, k, |ids|)).None?;
    } else {
      forall i | 0 <= i < |ids|
        ensures FoldToplevel(ops, textures, ClassOf(ids, texs, ov, i, |ids|)).Some?
      {
        assert roots[i] in groups;
      }
      forall i | 0 <= i < |ids|
        ensures InSomeCluster(texs, ov, r.value, i)
      {
        assert roots[i] in groups;
      }
    }
  }

  // ---------------------------------------------------------------------
  // What the clustering promises.

  /** An id is in the class of k exactly when some position below m holding it is connected to k. */
  lemma {:induction false} InClassOf<T>(ids: seq<string>, texs: seq<T>, ov: (T, T) -> bool, k: nat, m: nat, id: string)
    requires m <= |ids| == |texs|
    ensures id in ClassOf(ids, texs, ov, k, m) <==> exists j :: 0 <= j < m && ids[j] == id && Connected(texs, ov, j, k)
    decreases m
  {
    if m > 0 {
      InClassOf(ids, texs, ov, k, m - 1, id);
    }
  }

  /** The ids are distinct. */
  ghost predicate Distinct(ids: seq<string>)
  {
    forall i, j :: 0 <= i < j < |ids| ==> ids[i] != ids[j]
  }

  /** With distinct ids, the id at position i is in the class of k exactly when i is connected to k. */
  lemma InClassAt<T>(ids: seq<string>, texs: seq<T>, ov: (T, T) -> bool, k: nat, i: nat)
    requires |ids| == |texs| && Distinct(ids) && i < |ids|
    ensures ids[i] in ClassOf(ids, texs, ov, k, |ids|) <==> Connected(texs, ov, i, k)
  {
    InClassOf(ids, texs, ov, k, |ids|, ids[i]);
  }

  /** The ids of each cluster's children, cluster after cluster in `order`. */
  function ClusterIds<Top, Ch>(clusters: map<nat, Cluster<Top, Ch>>, order: seq<nat>): seq<string>
    requires forall k :: k in order ==> k in clusters
  {
    if order == [] then []
    else ClusterIds(clusters, order[..|order| - 1]) + ChildIds(clusters[order[|order| - 1]].children)
  }

  /** How many keys in `order` position i is connected to. */
  ghost function LinkedKeys<T>(texs: seq<T>, ov: (T, T) -> bool, order: seq<nat>, i: nat): nat
  {
    if order == [] then 0
    else LinkedKeys(texs, ov, order[..|order| - 1], i) + (if Connected(texs, ov, i, order[|order| - 1]) then 1 else 0)
  }

  lemma {:induction false} NoLinkedKeys<T>(texs: seq<T>, ov: (T, T) -> bool, order: seq<nat>, i: nat)
    requires forall k :: k in order ==> !Connected(texs, ov, i, k)
    ensures LinkedKeys(texs, ov, order, i) == 0
    decreases |order|
  {
    if order != [] {
      NoLinkedKeys(texs, ov, order[..|order| - 1], i);
    }
  }

  /** Among distinct, pairwise unconnected keys, a position connected to one of them is connected to exactly one. */
  lemma {:induction false} OneLinkedKey<T>(texs: seq<T>, ov: (T, T) -> bool, order: seq<nat>, i: nat)
    requires forall a, b :: 0 <= a < b < |order| ==> order[a] != order[b]
    requires forall a, b :: 0 <= a < |order| && 0 <= b < |order| && a != b ==> !Connected(texs, ov, order[a], order[b])
    requires exists k :: k in order && Connected(texs, ov, i, k)
    ensures LinkedKeys(texs, ov, order, i) == 1
    decreases |order|
  {
    var init, last := order[..|order| - 1], order[|order| - 1];
    if Connected(texs, ov, i, last) {
      forall k | k in init
        ensures !Connected(texs, ov, i, k)
      {
        var a :| 0 <= a < |init| && init[a] == k;
        assert !Connected(texs, ov, order[a], order[|order| - 1]);
        if Connected(texs, ov, i, k) {
          ConnectedSym(texs, ov, i, k);
          ConnectedTrans(texs, ov, k, i, last);
        }
      }
      NoLinkedKeys(texs, ov, init, i);
    } else {
      var k :| k in order && Connected(texs, ov, i, k);
      assert k in init;
      OneLinkedKey(texs, ov, init, i);
    }
  }

  /** How many times x occurs in s. */
  function Occurrences(s: seq<string>, x: string): nat
  {
    if s == [] then 0 else Occurrences(s[..|s| - 1], x) + (if s[|s| - 1] == x then 1 else 0)
  }

  lemma {:induction false} OccurrencesAppend(s: seq<string>, t: seq<string>, x: string)
    ensures Occurrences(s + t, x) == Occurrences(s, x) + Occurrences(t, x)
    decreases |t|
  {
    if t == [] {
      assert s + t == s;
    } else {
      OccurrencesAppend(s, t[..|t| - 1], x);
      assert (s + t)[..|s + t| - 1] == s + t[..|t| - 1];
    }
  }

  lemma OccurrencesSnoc(s: seq<string>, e: string, x: string)
    ensures Occurrences(s + [e], x) == Occurrences(s, x) + if e == x then 1 else 0
  {
    assert (s + [e])[..|s|] == s;
  }

  /** The count of a multiset of a sequence is the number of occurrences. */
  lemma {:induction false} OccurrencesMultiset(s: seq<string>, x: string)
    ensures multiset(s)[x] == Occurrences(s, x)
    decreases |s|
  {
    if s != [] {
      OccurrencesMultiset(s[..|s| - 1], x);
      assert s == s[..|s| - 1] + [s[|s| - 1]];
    }
  }

  /** Each id occurs in the concatenated clusters once per key its position is connected to. */
  lemma {:induction false} ClusterIdsCount<T, Top, Ch>(
    ops: TextureOps<T, Top, Ch>, textures: map<string, T>, ids: seq<string>,
    clusters: map<nat, Cluster<Top, Ch>>, order: seq<nat>, i: nat)
    requires forall id :: id in ids ==> id in textures
    requires i < |ids| && forall j :: 0 <= j < |ids| && j != i ==> ids[j] != ids[i]
    requires IsClustering(ops, textures, ids, clusters)
    requires forall k :: k in order ==> k in clusters
    ensures Occurrences(ClusterIds(clusters, order), ids[i]) == LinkedKeys(InOrder(textures, ids), ops.bboxOverlaps, order, i)
    decreases |order|
  {
    if order != [] {
      var init, last := order[..|order| - 1], order[|order| - 1];
      ClusterIdsCount(ops, textures, ids, clusters, init, i);
      var texs := InOrder(textures, ids);
      var cls := ClassOf(ids, texs, ops.bboxOverlaps, last, |ids|);
      assert ChildIds(clusters[last].children) == cls;
      OccurrencesAppend(ClusterIds(clusters, init), cls, ids[i]);
      ClassCount(ids, texs, ops.bboxOverlaps, last, |ids|, i);
    }
  }

  /** With distinct ids, the class of k holds the id at position i once if i is connected to k, else not at all. */
  lemma ClassCount<T>(ids: seq<string>, texs: seq<T>, ov: (T, T) -> bool, k: nat, m: nat, i: nat)
    requires m <= |ids| == |texs| && i < |ids|
    requires forall j :: 0 <= j < |ids| && j != i ==> ids[j] != ids[i]
    ensures Occurrences(ClassOf(ids, texs, ov, k, m), ids[i]) == if i < m && Connected(texs, ov, i, k) then 1 else 0
  {
    var flags := seq(|texs|, j requires 0 <= j < |texs| => Connected(texs, ov, j, k));
    ClassIsSelect(ids, texs, ov, k, flags, m);
    SelectCount(ids, flags, m, i);
  }

  /** The ids at positions below m whose flag is set, in position order. */
  function Select(ids: seq<string>, flags: seq<bool>, m: nat): seq<string>
    requires m <= |ids| == |flags|
  {
    if m == 0 then [] else Select(ids, flags, m - 1) + (if flags[m - 1] then [ids[m - 1]] else [])
  }

  /** The class of k selects the positions connected to k. */
  lemma {:induction false} ClassIsSelect<T>(ids: seq<string>, texs: seq<T>, ov: (T, T) -> bool, k: nat, flags: seq<bool>, m: nat)
    requires m <= |ids| == |texs| == |flags|
    requires forall j :: 0 <= j < |flags| ==> flags[j] == Connected(texs, ov, j, k)
    ensures ClassOf(ids, texs, ov, k, m) == Select(ids, flags, m)
    decreases m
  {
    if m > 0 {
      ClassIsSelect(ids, texs, ov, k, flags, m - 1);
    }
  }

  /** A selection holds the id at position i once if i is selected, else not at all, when no other position holds it. */
  lemma {:induction false} SelectCount(ids: seq<string>, flags: seq<bool>, m: nat, i: nat)
    requires m <= |ids| == |flags| && i < |ids|
    requires forall j :: 0 <= j < |ids| && j != i ==> ids[j] != ids[i]
    ensures Occurrences(Select(ids, flags, m), ids[i]) == if i < m && flags[i] then 1 else 0
    decreases m
  {
    if m > 0 {
      SelectCount(ids, flags, m - 1, i);
      var prev := Select(ids, flags, m - 1);
      if flags[m - 1] {
        assert Select(ids, flags, m) == prev + [ids[m - 1]];
        OccurrencesSnoc(prev, ids[m - 1], ids[i]);
        assert ids[m - 1] == ids[i] <==> m - 1 == i;
      } else {
        assert Select(ids, flags, m) == prev;
      }
    }
  }

  /**
   * Every texture id lands in exactly one cluster: concatenating the
   * clusters' child ids, in any order of the clusters, gives a permutation of
   * the texture ids.
   */
  lemma ChildrenPartitionIds<T, Top, Ch>(
    ops: TextureOps<T, Top, Ch>, textures: map<string, T>, ids: seq<string>,
    clusters: map<nat, Cluster<Top, Ch>>, order: seq<nat>)
    requires IsEnumeration(ids, textures.Keys)
    requires IsClustering(ops, textures, ids, clusters)
    requires IsEnumeration(order, clusters.Keys)
    ensures multiset(ClusterIds(clusters, order)) == multiset(ids)
    ensures |ClusterIds(clusters, order)| == |ids|
  {
    var texs := InOrder(textures, ids);
    var ov := ops.bboxOverlaps;
    var all := ClusterIds(clusters, order);
    ClusterIdsWithin(ops, textures, ids, clusters, order);
    forall x
      ensures multiset(all)[x] == multiset(ids)[x]
    {
      if i :| 0 <= i < |ids| && ids[i] == x {
        IdOccursOnce(ops, textures, ids, clusters, order, i);
        OccurrencesMultiset(all, x);
        OccurrencesMultiset(ids, x);
      } else {
        assert x !in all;
      }
    }
    assert multiset(all) == multiset(ids);
    assert |all| == |multiset(all)| == |multiset(ids)| == |ids|;
  }

  /** The id at position i occurs once among the ids and once among the clusters' children. */
  lemma IdOccursOnce<T, Top, Ch>(
    ops: TextureOps<T, Top, Ch>, textures: map<string, T>, ids: seq<string>,
    clusters: map<nat, Cluster<Top, Ch>>, order: seq<nat>, i: nat)
    requires IsEnumeration(ids, textures.Keys)
    requires IsClustering(ops, textures, ids, clusters)
    requires IsEnumeration(order, clusters.Keys)
    requires i < |ids|
    ensures Occurrences(ClusterIds(clusters, order), ids[i]) == 1 == Occurrences(ids, ids[i])
  {
    var texs := InOrder(textures, ids);
    var ov := ops.bboxOverlaps;
    ClusterIdsCount(ops, textures, ids, clusters, order, i);
    assert InSomeCluster(texs, ov, clusters, i);
    OneLinkedKey(texs, ov, order, i);
    DistinctOccurrences(ids, |ids|, i);
    assert ids[..|ids|] == ids;
  }

  /** In a sequence whose other positions differ from position i, the id there occurs once. */
  lemma {:induction false} DistinctOccurrences(ids: seq<string>, m: nat, i: nat)
    requires m <= |ids| && i < |ids| && forall j :: 0 <= j < |ids| && j != i ==> ids[j] != ids[i]
    ensures Occurrences(ids[..m], ids[i]) == if i < m then 1 else 0
    decreases m
  {
    if m > 0 {
      DistinctOccurrences(ids, m - 1, i);
      assert ids[..m][..m - 1] == ids[..m - 1];
    }
  }

  /** Every child id of the clusters of `order` is a texture id. */
  lemma {:induction false} ClusterIdsWithin<T, Top, Ch>(
    ops: TextureOps<T, Top, Ch>, textures: map<string, T>, ids: seq<string>,
    clusters: map<nat, Cluster<Top, Ch>>, order: seq<nat>)
    requires forall id :: id in ids ==> id in textures
    requires IsClustering(ops, textures, ids, clusters)
    requires forall k :: k in order ==> k in clusters
    ensures forall id :: id in ClusterIds(clusters, order) ==> id in ids
    decreases |order|
  {
    if order != [] {
      var last := order[|order| - 1];
      ClusterIdsWithin(ops, textures, ids, clusters, order[..|order| - 1]);
      forall id | id in ChildIds(clusters[last].children)
        ensures id in ids
      {
        ChildIsTexture(ops, textures, ids, clusters, last, id);
      }
    }
  }

  /** Every child id of one cluster is a texture id. */
  lemma ChildIsTexture<T, Top, Ch>(
    ops: TextureOps<T, Top, Ch>, textures: map<string, T>, ids: seq<string>,
    clusters: map<nat, Cluster<Top, Ch>>, k: nat, id: string)
    requires forall id :: id in ids ==> id in textures
    requires IsClustering(ops, textures, ids, clusters)
    requires k in clusters && id in ChildIds(clusters[k].children)
    ensures id in ids
  {
    assert ChildIds(clusters[k].children)
      == ClassOf(ids, InOrder(textures, ids), ops.bboxOverlaps, k, |ids|);
  }

  /**
   * Two textures the pairwise pass found overlapping end up in the same
   * cluster; by chaining, so do textures linked through intermediate ones.
   */
  lemma OverlappingShareCluster<T, Top, Ch>(
    ops: TextureOps<T, Top, Ch>, textures: map<string, T>, ids: seq<string>,
    clusters: map<nat, Cluster<Top, Ch>>, a: nat, b: nat, k: nat)
    requires IsEnumeration(ids, textures.Keys)
    requires IsClustering(ops, textures, ids, clusters)
    requires a < b < |ids| && ops.bboxOverlaps(textures[ids[a]], textures[ids[b]])
    requires k in clusters
    ensures ids[a] in ChildIds(clusters[k].children) <==> ids[b] in ChildIds(clusters[k].children)
  {
    var texs := InOrder(textures, ids);
    var ov := ops.bboxOverlaps;
    assert ChildIds(clusters[k].children) == ClassOf(ids, texs, ov, k, |ids|);
    InClassAt(ids, texs, ov, k, a);
    InClassAt(ids, texs, ov, k, b);
    assert Linked(texs, ov, a, b);
    LinkedConnected(texs, ov, a, b);
    ConnectedSym(texs, ov, a, b);
    if Connected(texs, ov, a, k) {
      ConnectedTrans(texs, ov, b, a, k);
    }
    if Connected(texs, ov, b, k) {
      ConnectedTrans(texs, ov, a, b, k);
    }
  }

  /**
   * A cluster never mixes textures that differ in a key that overlapping
   * textures always share (for `bbox_overlaps`, the components of the source image path).
   */
  lemma ClusterSharesKey<T, Top, Ch, K>(
    ops: TextureOps<T, Top, Ch>, textures: map<string, T>, ids: seq<string>,
    clusters: map<nat, Cluster<Top, Ch>>, key: T -> K, k: nat, id: string)
    requires IsEnumeration(ids, textures.Keys)
    requires IsClustering(ops, textures, ids, clusters)
    requires forall s, t :: ops.bboxOverlaps(s, t) ==> key(s) == key(t)
    requires k in clusters && id in ChildIds(clusters[k].children)
    ensures key(textures[id]) == key(textures[ids[k]])
  {
    var texs := InOrder(textures, ids);
    var ov := ops.bboxOverlaps;
    assert ChildIds(clusters[k].children) == ClassOf(ids, texs, ov, k, |ids|);
    InClassOf(ids, texs, ov, k, |ids|, id);
    var j :| 0 <= j < |ids| && ids[j] == id && Connected(texs, ov, j, k);
    var p :| IsPath(texs, ov, p) && p[0] == j && p[|p| - 1] == k;
    ConnectedSharesKey(texs, ov, key, p);
  }
}
