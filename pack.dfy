/**
 * `AtlasPacker::pack` and `PackedAtlasProvider` of src/pack.rs: clusters are
 * handed to a texture placer one after the other; when the placer reports it
 * is full, the working atlas is stored under the next atlas id and a new one
 * is started. The last working atlas is stored if it holds anything.
 */
module Packing {
  import opened Wrappers
  import opened Enumeration
  import opened Clustering

  /**
   * A `TexturePlacer`: its state `S` and its three operations as pure
   * functions. `placeTexture(state, toplevel, children, clusterId, atlasId)`
   * gives the new state, the placed geometry of the toplevel region and one
   * optional placement per child. The concrete placers are not part of this model.
   */
  datatype Placer<!S, !Top, !Ch, G, I> = Placer(
    canPlace: (S, Top) -> bool,
    placeTexture: (S, Top, seq<(string, Ch)>, nat, nat) -> (S, G, seq<Option<I>>),
    resetParam: S -> S)

  /** The variables of the packing loop: placer state, working atlas, stored atlases, placements so far. */
  datatype PackState<S, G, I> = PackState(
    placer: S, current: seq<G>, atlases: map<nat, seq<G>>, textureInfo: map<string, I>)

  /** `PackedAtlasProvider`: atlas id -> atlas, cluster id -> cluster, texture id -> placement. */
  datatype PackedAtlasProvider<Top, Ch, G, I> = PackedAtlasProvider(
    atlases: map<nat, seq<G>>, clusters: map<nat, Cluster<Top, Ch>>, textureInfo: map<string, I>)

  function Init<S, G, I>(placer: S): PackState<S, G, I>
  {
    PackState(placer, [], map[], map[])
  }

  function ZipLength(a: nat, b: nat): nat
  {
    if a < b then a else b
  }

  /**
   * The `zip` of child placements with child ids: the first n pairs in order,
   * each `Some` placement recorded under its id.
   */
  function ZipInsert<I>(m: map<string, I>, infos: seq<Option<I>>, ids: seq<string>, n: nat): map<string, I>
    requires n <= |infos| && n <= |ids|
  {
    if n == 0 then m
    else
      var r0 := ZipInsert(m, infos, ids, n - 1);
      if infos[n - 1].Some? then r0[ids[n - 1] := infos[n - 1].value] else r0
  }

  /**
   * The zip records an id exactly when one of its first n pairs has a `Some`
   * placement for it; ids it does not touch keep their entry, and an id
   * placed more than once keeps its last placement.
   */
  lemma {:induction false} ZipInsertFacts<I>(m: map<string, I>, infos: seq<Option<I>>, ids: seq<string>, n: nat)
    requires n <= |infos| && n <= |ids|
    ensures var r := ZipInsert(m, infos, ids, n);
      && (forall id :: id in r <==> id in m || exists t :: 0 <= t < n && ids[t] == id && infos[t].Some?)
      && (forall id :: id in m && (forall t :: 0 <= t < n && ids[t] == id ==> infos[t].None?) ==> r[id] == m[id])
      && (forall t :: 0 <= t < n && infos[t].Some? && LastFor(ids, infos, t, n) ==> r[ids[t]] == infos[t].value)
    decreases n
  {
    if n > 0 {
      ZipInsertFacts(m, infos, ids, n - 1);
    }
  }

  /** No pair after position t and before n places the id of position t again. */
  predicate LastFor<I>(ids: seq<string>, infos: seq<Option<I>>, t: nat, n: nat)
    requires t < n <= |infos| && n <= |ids|
  {
    forall u :: t < u < n && ids[u] == ids[t] ==> infos[u].None?
  }

  /** The `can_place` check: a full placer makes the working atlas the next stored one. */
  function Flush<S, Top, Ch, G, I>(pl: Placer<S, Top, Ch, G, I>, st: PackState<S, G, I>, top: Top): PackState<S, G, I>
  {
    if pl.canPlace(st.placer, top) then st
    else PackState(pl.resetParam(st.placer), [], st.atlases[|st.atlases| := st.current], st.textureInfo)
  }

  /** The atlas id `place_texture` receives for this cluster, and the toplevel geometry it returns. */
  function Placed<S, Top, Ch, G, I>(pl: Placer<S, Top, Ch, G, I>, st: PackState<S, G, I>, clusterId: nat, cluster: Cluster<Top, Ch>): (nat, G)
  {
    var f := Flush(pl, st, cluster.toplevel);
    (|f.atlases|, pl.placeTexture(f.placer, cluster.toplevel, cluster.children, clusterId, |f.atlases|).1)
  }

  /** One iteration of the packing loop. */
  function Step<S, Top, Ch, G, I>(pl: Placer<S, Top, Ch, G, I>, st: PackState<S, G, I>, clusterId: nat, cluster: Cluster<Top, Ch>): PackState<S, G, I>
  {
    var f := Flush(pl, st, cluster.toplevel);
    var placed := pl.placeTexture(f.placer, cluster.toplevel, cluster.children, clusterId, |f.atlases|);
    var ids := ChildIds(cluster.children);
    PackState(placed.0, f.current + [placed.1], f.atlases,
      ZipInsert(f.textureInfo, placed.2, ids, ZipLength(|placed.2|, |ids|)))
  }

  /** The loop state after the clusters of `order`, in that order. */
  function Run<S, Top, Ch, G, I>(pl: Placer<S, Top, Ch, G, I>, clusters: map<nat, Cluster<Top, Ch>>, order: seq<nat>, placer: S): PackState<S, G, I>
    requires forall k :: k in order ==> k in clusters
  {
    if order == [] then Init(placer)
    else
      var last := order[|order| - 1];
      Step(pl, Run(pl, clusters, order[..|order| - 1], placer), last, clusters[last])
  }

  /** For each cluster of `order`, the atlas id it was placed into and the geometry it got. */
  function Log<S, Top, Ch, G, I>(pl: Placer<S, Top, Ch, G, I>, clusters: map<nat, Cluster<Top, Ch>>, order: seq<nat>, placer: S): seq<(nat, G)>
    requires forall k :: k in order ==> k in clusters
  {
    if order == [] then []
    else
      var init, last := order[..|order| - 1], order[|order| - 1];
      Log(pl, clusters, init, placer) + [Placed(pl, Run(pl, clusters, init, placer), last, clusters[last])]
  }

  /** After the loop: the working atlas is stored only if it is not empty. */
  function Finish<S, Top, Ch, G, I>(st: PackState<S, G, I>, clusters: map<nat, Cluster<Top, Ch>>): PackedAtlasProvider<Top, Ch, G, I>
  {
    PackedAtlasProvider(
      if st.current != [] then st.atlases[|st.atlases| := st.current] else st.atlases,
      clusters, st.textureInfo)
  }

  /** `pack` once the clusters exist and their iteration order is fixed. */
  function PackClusters<S, Top, Ch, G, I>(pl: Placer<S, Top, Ch, G, I>, clusters: map<nat, Cluster<Top, Ch>>, order: seq<nat>, placer: S)
    : PackedAtlasProvider<Top, Ch, G, I>
    requires forall k :: k in order ==> k in clusters
  {
    Finish(Run(pl, clusters, order, placer), clusters)
  }

  /** `get_texture_info`: the placement recorded for a texture id, if any. */
  function GetTextureInfo<Top, Ch, G, I>(p: PackedAtlasProvider<Top, Ch, G, I>, id: string): (r: Option<I>)
    ensures r.Some? <==> id in p.textureInfo
    ensures r.Some? ==> r.value == p.textureInfo[id]
  {
    if id in p.textureInfo then Some(p.textureInfo[id]) else None
  }

  // ---------------------------------------------------------------------
  // Atlases: ids 0 .. n-1, each holding the clusters placed under its id.

  /** The atlas ids are exactly 0 .. n-1, for n atlases. */
  ghost predicate Gapless<G>(atlases: map<nat, seq<G>>)
  {
    forall a: nat :: a in atlases <==> a < |atlases|
  }

  /** Storing a page under the next id keeps the ids gapless and adds one atlas. */
  lemma StoreNext<G>(atlases: map<nat, seq<G>>, page: seq<G>)
    requires Gapless(atlases)
    ensures |atlases[|atlases| := page]| == |atlases| + 1
    ensures Gapless(atlases[|atlases| := page])
  {
    assert |atlases| !in atlases;
  }

  /** The geometries the log placed into atlas a, in order. */
  function PageOf<G>(log: seq<(nat, G)>, a: nat): seq<G>
  {
    if log == [] then []
    else PageOf(log[..|log| - 1], a) + (if log[|log| - 1].0 == a then [log[|log| - 1].1] else [])
  }

  lemma {:induction false} PageOfAppend<G>(log: seq<(nat, G)>, e: (nat, G), a: nat)
    ensures PageOf(log + [e], a) == PageOf(log, a) + (if e.0 == a then [e.1] else [])
  {
    assert (log + [e])[..|log|] == log;
  }

  lemma {:induction false} PageOfEmpty<G>(log: seq<(nat, G)>, a: nat)
    requires forall t :: 0 <= t < |log| ==> log[t].0 != a
    ensures PageOf(log, a) == []
    decreases |log|
  {
    if log != [] {
      PageOfEmpty(log[..|log| - 1], a);
    }
  }

  /**
   * The stored atlases are under ids 0 .. n-1, each equal to the geometries
   * placed under its id; the working atlas holds those placed under id n, and
   * no cluster was placed under an id above n.
   */
  ghost predicate Paged<S, G, I>(st: PackState<S, G, I>, log: seq<(nat, G)>)
  {
    && Gapless(st.atlases)
    && (forall a :: a in st.atlases ==> st.atlases[a] == PageOf(log, a))
    && st.current == PageOf(log, |st.atlases|)
    && (forall t :: 0 <= t < |log| ==> log[t].0 <= |st.atlases|)
  }

  /** A full placer's working atlas is stored as the page of its id; the new, empty one has no entries yet. */
  lemma FlushKeepsPaged<S, Top, Ch, G, I>(pl: Placer<S, Top, Ch, G, I>, st: PackState<S, G, I>, log: seq<(nat, G)>, top: Top)
    requires Paged(st, log)
    ensures Paged(Flush(pl, st, top), log)
  {
    if !pl.canPlace(st.placer, top) {
      var f := Flush(pl, st, top);
      assert f.atlases == st.atlases[|st.atlases| := st.current] && f.current == [];
      StoreNext(st.atlases, st.current);
      PageOfEmpty(log, |st.atlases| + 1);
      forall a | a in f.atlases
        ensures f.atlases[a] == PageOf(log, a)
      {
      }
      forall t | 0 <= t < |log|
        ensures log[t].0 <= |f.atlases|
      {
      }
    }
  }

  /** Placing a geometry under the working atlas's id appends it to that page. */
  lemma {:induction false} PlaceKeepsPaged<S, G, I>(f: PackState<S, G, I>, log: seq<(nat, G)>, e: (nat, G), st: PackState<S, G, I>)
    requires Paged(f, log) && e.0 == |f.atlases|
    requires st.atlases == f.atlases && st.current == f.current + [e.1]
    ensures Paged(st, log + [e])
  {
    PageOfAppend(log, e, e.0);
    forall a | a in st.atlases
      ensures st.atlases[a] == PageOf(log + [e], a)
    {
      PageOfAppend(log, e, a);
    }
  }

  /** The loop keeps its atlases paged by the log, and after the first cluster the working atlas is never empty. */
  lemma {:induction false} RunInvariant<S, Top, Ch, G, I>(pl: Placer<S, Top, Ch, G, I>, clusters: map<nat, Cluster<Top, Ch>>, order: seq<nat>, placer: S)
    requires forall k :: k in order ==> k in clusters
    ensures var st, log := Run(pl, clusters, order, placer), Log(pl, clusters, order, placer);
      && |log| == |order|
      && Paged(st, log)
      && (order != [] ==> st.current != [])
    decreases |order|
  {
    if order != [] {
      var init, last := order[..|order| - 1], order[|order| - 1];
      RunInvariant(pl, clusters, init, placer);
      var prev, log0 := Run(pl, clusters, init, placer), Log(pl, clusters, init, placer);
      var cluster := clusters[last];
      FlushKeepsPaged(pl, prev, log0, cluster.toplevel);
      PlaceKeepsPaged(Flush(pl, prev, cluster.toplevel), log0, Placed(pl, prev, last, cluster), Run(pl, clusters, order, placer));
    }
  }

  /**
   * The atlases `pack` returns: ids 0 .. n-1 with no gaps; atlas a holds, in
   * order, the geometry of every cluster `place_texture` was told to put in
   * atlas a, so each id handed to the placer is the id its atlas is stored
   * under; there is an atlas exactly when there is a cluster, and the last
   * atlas is never empty.
   */
  lemma PackAtlases<S, Top, Ch, G, I>(pl: Placer<S, Top, Ch, G, I>, clusters: map<nat, Cluster<Top, Ch>>, order: seq<nat>, placer: S)
    requires forall k :: k in order ==> k in clusters
    ensures var p, log := PackClusters(pl, clusters, order, placer), Log(pl, clusters, order, placer);
      && Gapless(p.atlases)
      && (forall a :: a in p.atlases ==> p.atlases[a] == PageOf(log, a))
      && (forall t :: 0 <= t < |log| ==> log[t].0 in p.atlases)
      && (order == [] <==> |p.atlases| == 0)
      && (order != [] ==> p.atlases[|p.atlases| - 1] != [])
  {
    RunInvariant(pl, clusters, order, placer);
    var st := Run(pl, clusters, order, placer);
    var n := |st.atlases|;
    if st.current != [] {
      StoreNext(st.atlases, st.current);
    }
  }

  /** Clusters the placer could not take from its first state: atlas 0 is stored empty. */
  lemma FirstClusterRejected<S, Top, Ch, G, I>(pl: Placer<S, Top, Ch, G, I>, clusters: map<nat, Cluster<Top, Ch>>, order: seq<nat>, placer: S)
    requires forall k :: k in order ==> k in clusters
    requires order != [] && !pl.canPlace(placer, clusters[order[0]].toplevel)
    ensures 0 in PackClusters(pl, clusters, order, placer).atlases
    ensures PackClusters(pl, clusters, order, placer).atlases[0] == []
  {
    PackAtlases(pl, clusters, order, placer);
    FirstPlacedInOne(pl, clusters, order, placer);
    var log := Log(pl, clusters, order, placer);
    PageOfEmpty(log, 0);
  }

  /** When the first cluster does not fit, it and every later one go to atlases numbered from 1. */
  lemma {:induction false} FirstPlacedInOne<S, Top, Ch, G, I>(pl: Placer<S, Top, Ch, G, I>, clusters: map<nat, Cluster<Top, Ch>>, order: seq<nat>, placer: S)
    requires forall k :: k in order ==> k in clusters
    requires order != [] && !pl.canPlace(placer, clusters[order[0]].toplevel)
    ensures |Log(pl, clusters, order, placer)| == |order|
    ensures forall t :: 0 <= t < |order| ==> Log(pl, clusters, order, placer)[t].0 >= 1
    ensures |Run(pl, clusters, order, placer).atlases| >= 1
    decreases |order|
  {
    var init, last := order[..|order| - 1], order[|order| - 1];
    RunInvariant(pl, clusters, order, placer);
    if init == [] {
      assert last == order[0];
    } else {
      assert init[0] == order[0];
      FirstPlacedInOne(pl, clusters, init, placer);
      var prev := Run(pl, clusters, init, placer);
      var f := Flush(pl, prev, clusters[last].toplevel);
      assert |f.atlases| >= |prev.atlases|;
    }
  }

  /** The sizes of the pages below n. */
  function PageSizes<G>(log: seq<(nat, G)>, n: nat): nat
  {
    if n == 0 then 0 else PageSizes(log, n - 1) + |PageOf(log, n - 1)|
  }

  lemma {:induction false} PageSizesAppend<G>(log: seq<(nat, G)>, e: (nat, G), n: nat)
    ensures PageSizes(log + [e], n) == PageSizes(log, n) + (if e.0 < n then 1 else 0)
    decreases n
  {
    if n > 0 {
      PageSizesAppend(log, e, n - 1);
      PageOfAppend(log, e, n - 1);
    }
  }

  lemma {:induction false} NoPageSizes<G>(n: nat)
    ensures PageSizes<G>([], n) == 0
  {
    if n > 0 {
      NoPageSizes<G>(n - 1);
    }
  }

  /** The pages below n together hold every entry whose id is below n. */
  lemma {:induction false} PageSizesTotal<G>(log: seq<(nat, G)>, n: nat)
    requires forall t :: 0 <= t < |log| ==> log[t].0 < n
    ensures PageSizes(log, n) == |log|
    decreases |log|
  {
    if log == [] {
      NoPageSizes<G>(n);
    } else {
      var init, last := log[..|log| - 1], log[|log| - 1];
      assert init + [last] == log;
      PageSizesTotal(init, n);
      PageSizesAppend(init, last, n);
    }
  }

  /** The total size of the atlases with ids below n. */
  function AtlasSizes<G>(atlases: map<nat, seq<G>>, n: nat): nat
    requires forall a: nat :: a < n ==> a in atlases
  {
    if n == 0 then 0 else AtlasSizes(atlases, n - 1) + |atlases[n - 1]|
  }

  lemma {:induction false} AtlasSizesArePages<G>(atlases: map<nat, seq<G>>, log: seq<(nat, G)>, n: nat)
    requires forall a: nat :: a < n ==> a in atlases && atlases[a] == PageOf(log, a)
    ensures AtlasSizes(atlases, n) == PageSizes(log, n)
    decreases n
  {
    if n > 0 {
      AtlasSizesArePages(atlases, log, n - 1);
    }
  }

  /** Every cluster contributes exactly one toplevel geometry to exactly one atlas. */
  lemma AtlasSizesCountClusters<S, Top, Ch, G, I>(pl: Placer<S, Top, Ch, G, I>, clusters: map<nat, Cluster<Top, Ch>>, order: seq<nat>, placer: S)
    requires forall k :: k in order ==> k in clusters
    ensures var p := PackClusters(pl, clusters, order, placer);
      (forall a: nat :: a < |p.atlases| ==> a in p.atlases)
      && AtlasSizes(p.atlases, |p.atlases|) == |order|
  {
    PackAtlases(pl, clusters, order, placer);
    RunInvariant(pl, clusters, order, placer);
    var p, log := PackClusters(pl, clusters, order, placer), Log(pl, clusters, order, placer);
    var n := |p.atlases|;
    AtlasSizesArePages(p.atlases, log, n);
    PageSizesTotal(log, n);
  }

  // ---------------------------------------------------------------------
  // Placements: `texture_info_map`.

  /** id is the id of a child of one of the clusters of `order`. */
  ghost predicate ChildOfOrder<Top, Ch>(clusters: map<nat, Cluster<Top, Ch>>, order: seq<nat>, id: string)
    requires forall k :: k in order ==> k in clusters
  {
    exists j :: 0 <= j < |order| && id in ChildIds(clusters[order[j]].children)
  }

  /** Only children of placed clusters get a placement. */
  lemma {:induction false} InfoOnlyForChildren<S, Top, Ch, G, I>(
    pl: Placer<S, Top, Ch, G, I>, clusters: map<nat, Cluster<Top, Ch>>, order: seq<nat>, placer: S, id: string)
    requires forall k :: k in order ==> k in clusters
    requires id in Run(pl, clusters, order, placer).textureInfo
    ensures ChildOfOrder(clusters, order, id)
    decreases |order|
  {
    var init, last := order[..|order| - 1], order[|order| - 1];
    var prev := Run(pl, clusters, init, placer);
    var cluster := clusters[last];
    var f := Flush(pl, prev, cluster.toplevel);
    var placed := pl.placeTexture(f.placer, cluster.toplevel, cluster.children, last, |f.atlases|);
    var ids := ChildIds(cluster.children);
    ZipInsertFacts(f.textureInfo, placed.2, ids, ZipLength(|placed.2|, |ids|));
    if id in prev.textureInfo {
      InfoOnlyForChildren(pl, clusters, init, placer, id);
      var j :| 0 <= j < |init| && id in ChildIds(clusters[init[j]].children);
      assert init[j] == order[j];
    } else {
      var t :| 0 <= t < |ids| && ids[t] == id;
      assert id in ChildIds(clusters[order[|order| - 1]].children);
    }
  }

  /** The placer gives a placement to every child it is handed. */
  ghost predicate PlacesEveryChild<S(!new), Top(!new), Ch(!new), G, I>(pl: Placer<S, Top, Ch, G, I>)
  {
    forall s, top, children, c, a :: |pl.placeTexture(s, top, children, c, a).2| >= |children|
      && forall t :: 0 <= t < |children| ==> pl.placeTexture(s, top, children, c, a).2[t].Some?
  }

  /** With such a placer, every child of every placed cluster gets a placement. */
  lemma {:induction false} EveryChildPlaced<S(!new), Top(!new), Ch(!new), G, I>(
    pl: Placer<S, Top, Ch, G, I>, clusters: map<nat, Cluster<Top, Ch>>, order: seq<nat>, placer: S, id: string)
    requires forall k :: k in order ==> k in clusters
    requires PlacesEveryChild(pl)
    requires ChildOfOrder(clusters, order, id)
    ensures id in Run(pl, clusters, order, placer).textureInfo
    decreases |order|
  {
    var init, last := order[..|order| - 1], order[|order| - 1];
    var prev := Run(pl, clusters, init, placer);
    var cluster := clusters[last];
    var f := Flush(pl, prev, cluster.toplevel);
    var placed := pl.placeTexture(f.placer, cluster.toplevel, cluster.children, last, |f.atlases|);
    var ids := ChildIds(cluster.children);
    assert Run(pl, clusters, order, placer).textureInfo == ZipInsert(f.textureInfo, placed.2, ids, ZipLength(|placed.2|, |ids|));
    ZipInsertGrows(f.textureInfo, placed.2, ids, ZipLength(|placed.2|, |ids|));
    var j :| 0 <= j < |order| && id in ChildIds(clusters[order[j]].children);
    if j < |order| - 1 {
      assert init[j] == order[j];
      EveryChildPlaced(pl, clusters, init, placer, id);
      assert id in f.textureInfo;
    } else {
      var t :| 0 <= t < |ids| && ids[t] == id;
      assert |placed.2| >= |cluster.children| && placed.2[t].Some?;
    }
  }

  /** The zip keeps every entry and records every id with a `Some` placement among its first n pairs. */
  lemma ZipInsertGrows<I>(m: map<string, I>, infos: seq<Option<I>>, ids: seq<string>, n: nat)
    requires n <= |infos| && n <= |ids|
    ensures m.Keys <= ZipInsert(m, infos, ids, n).Keys
    ensures forall t :: 0 <= t < n && infos[t].Some? ==> ids[t] in ZipInsert(m, infos, ids, n)
  {
    ZipInsertFacts(m, infos, ids, n);
  }

  /**
   * End to end: when the clusters are those of the textures and the placer
   * places every child, `get_texture_info` answers for exactly the texture
   * ids that were added.
   */
  lemma InfoForEveryTexture<S(!new), T, Top(!new), Ch(!new), G, I>(
    ops: TextureOps<T, Top, Ch>, textures: map<string, T>, ids: seq<string>,
    pl: Placer<S, Top, Ch, G, I>, clusters: map<nat, Cluster<Top, Ch>>, order: seq<nat>, placer: S, id: string)
    requires IsEnumeration(ids, textures.Keys)
    requires IsClustering(ops, textures, ids, clusters)
    requires IsEnumeration(order, clusters.Keys)
    requires PlacesEveryChild(pl)
    ensures GetTextureInfo(PackClusters(pl, clusters, order, placer), id).Some? <==> id in textures
  {
    if id in textures {
      TextureIsChild(ops, textures, ids, clusters, order, id);
      EveryChildPlaced(pl, clusters, order, placer, id);
    }
    if id in Run(pl, clusters, order, placer).textureInfo {
      InfoOnlyForChildren(pl, clusters, order, placer, id);
      var j :| 0 <= j < |order| && id in ChildIds(clusters[order[j]].children);
      ChildIsTexture(ops, textures, ids, clusters, order[j], id);
    }
  }

  /** Every texture id is a child of one of the clusters. */
  lemma TextureIsChild<T, Top, Ch>(
    ops: TextureOps<T, Top, Ch>, textures: map<string, T>, ids: seq<string>,
    clusters: map<nat, Cluster<Top, Ch>>, order: seq<nat>, id: string)
    requires IsEnumeration(ids, textures.Keys)
    requires IsClustering(ops, textures, ids, clusters)
    requires IsEnumeration(order, clusters.Keys)
    requires id in textures
    ensures ChildOfOrder(clusters, order, id)
  {
    var texs := InOrder(textures, ids);
    var ov := ops.bboxOverlaps;
    var i :| 0 <= i < |ids| && ids[i] == id;
    assert InSomeCluster(texs, ov, clusters, i);
    var k :| k in clusters && Connected(texs, ov, i, k);
    InClassAt(ids, texs, ov, k, i);
    assert ChildIds(clusters[k].children) == ClassOf(ids, texs, ov, k, |ids|);
    var j :| 0 <= j < |order| && order[j] == k;
  }

  // ---------------------------------------------------------------------
  // The packing loop and the packer.

  /** The loop of `pack` over the clusters in iteration order `order`, and the last atlas. */
  method PlaceClusters<S, Top, Ch, G, I>(pl: Placer<S, Top, Ch, G, I>, clusters: map<nat, Cluster<Top, Ch>>, order: seq<nat>, placer0: S)
    returns (p: PackedAtlasProvider<Top, Ch, G, I>)
    requires forall k :: k in order ==> k in clusters
    ensures p == PackClusters(pl, clusters, order, placer0)
  {
    var placer := placer0;
    var currentAtlas: seq<G> := [];
    var atlases: map<nat, seq<G>> := map[];
    var textureInfo: map<string, I> := map[];
    for i := 0 to |order|
      invariant PackState(placer, currentAtlas, atlases, textureInfo) == Run(pl, clusters, order[..i], placer0)
    {
      ghost var before := PackState(placer, currentAtlas, atlases, textureInfo);
      var clusterId := order[i];
      var cluster := clusters[clusterId];
      if !pl.canPlace(placer, cluster.toplevel) {
        var currentAtlasId := |atlases|;
        atlases := atlases[currentAtlasId := currentAtlas];
        currentAtlas := [];
        placer := pl.resetParam(placer);
      }
      assert PackState(placer, currentAtlas, atlases, textureInfo) == Flush(pl, before, cluster.toplevel);
      var currentAtlasId := |atlases|;
      var placed := pl.placeTexture(placer, cluster.toplevel, cluster.children, clusterId, currentAtlasId);
      placer := placed.0;
      currentAtlas := currentAtlas + [placed.1];
      textureInfo := RecordPlacements(textureInfo, placed.2, ChildIds(cluster.children));
      assert order[..i + 1][..i] == order[..i];
      assert PackState(placer, currentAtlas, atlases, textureInfo) == Step(pl, before, clusterId, cluster);
    }
    assert order[..|order|] == order;
    if currentAtlas != [] {
      var currentAtlasId := |atlases|;
      atlases := atlases[currentAtlasId := currentAtlas];
    }
    p := PackedAtlasProvider(atlases, clusters, textureInfo);
  }

  /** The inner loop of `pack`: each `Some` child placement recorded under its child id. */
  method RecordPlacements<I>(info0: map<string, I>, childInfos: seq<Option<I>>, childIds: seq<string>)
    returns (textureInfo: map<string, I>)
    ensures textureInfo == ZipInsert(info0, childInfos, childIds, ZipLength(|childInfos|, |childIds|))
  {
    textureInfo := info0;
    for t := 0 to ZipLength(|childInfos|, |childIds|)
      invariant textureInfo == ZipInsert(info0, childInfos, childIds, t)
    {
      if childInfos[t].Some? {
        textureInfo := textureInfo[childIds[t] := childInfos[t].value];
      }
    }
  }

  /** `AtlasPacker`: the textures added so far, by texture id. */
  class AtlasPacker<T> {
    var textures: map<string, T>

    /** `AtlasPacker::default`. */
    constructor ()
      ensures textures == map[]
    {
      textures := map[];
    }

    /** `add_texture`: a texture added under an existing id replaces the old one. */
    method AddTexture(textureId: string, texture: T)
      modifies this
      ensures textures == old(textures)[textureId := texture]
    {
      textures := textures[textureId := texture];
    }

    /** `create_cluster`: the textures in some iteration order `ids`, clustered. */
    method CreateCluster<Top, Ch>(ops: TextureOps<T, Top, Ch>)
      returns (r: Result<map<nat, Cluster<Top, Ch>>, PackError>, ghost ids: seq<string>)
      ensures IsEnumeration(ids, textures.Keys)
      ensures IsClusteringResult(ops, textures, ids, r)
    {
      var textureIds := EnumerateKeys(textures);
      r := ClusterInOrder(ops, textures, textureIds);
      ids := textureIds;
    }

    /**
     * `pack`: cluster the textures, then place the clusters in some
     * iteration order `order`. A cluster whose toplevel cannot be built is a
     * panic, returned as the failure.
     */
    method Pack<Top, Ch, S, G, I>(ops: TextureOps<T, Top, Ch>, pl: Placer<S, Top, Ch, G, I>, placer: S)
      returns (r: Result<PackedAtlasProvider<Top, Ch, G, I>, PackError>, ghost ids: seq<string>, ghost order: seq<nat>)
      ensures IsEnumeration(ids, textures.Keys)
      ensures r.Failure? ==> IsClusteringResult(ops, textures, ids, Failure(r.error))
      ensures r.Success? ==>
        && IsClusteringResult(ops, textures, ids, Success(r.value.clusters))
        && IsEnumeration(order, r.value.clusters.Keys)
        && r.value == PackClusters(pl, r.value.clusters, order, placer)
    {
      var clustered;
      clustered, ids := CreateCluster(ops);
      if clustered.Failure? {
        return Failure(clustered.error), ids, [];
      }
      var clusters := clustered.value;
      var clusterIds := EnumerateKeys(clusters);
      var p := PlaceClusters(pl, clusters, clusterIds, placer);
      r, order := Success(p), clusterIds;
    }
  }
}
