/**
 The asset graph of AssetPack and its two synchronous walks: collecting the
 assets to transform (deleting the outputs of deleted ones on the way) and
 deleting an asset's transformed outputs. File removal is a logged path.
 */
module Assets {
  import opened Wrappers
  import opened Json
  import opened Seqs

  type Path = string

  datatype AssetState = Added | Modified | Deleted | Normal

  /** The bookkeeping of one transform: whether it succeeded and the rejection message. */
  datatype Stats = Stats(success: bool, error: Option<string>)

  datatype Asset = Asset(
    path: Path,
    isFolder: bool,
    state: AssetState,
    skip: bool,
    children: seq<Asset>,
    transformChildren: seq<Asset>,
    stats: Option<Stats>,
    settings: Option<Object>,
    metaData: Object)

  /** The walk enters the asset: it is anything but `normal`. */
  predicate Live(a: Asset)
  {
    a.state != Normal
  }

  /** The asset is to be transformed: added or modified. */
  predicate Collectable(a: Asset)
  {
    a.state == Added || a.state == Modified
  }

  predicate IsDeleted(a: Asset)
  {
    a.state == Deleted
  }

  /** What the collection walk produces: the assets to transform, in order, and the removed paths, in order. */
  datatype Collected = Collected(assets: seq<Asset>, removed: seq<Path>)

  function Concat(x: Collected, y: Collected): Collected
  {
    Collected(x.assets + y.assets, x.removed + y.removed)
  }

  // ------------------------------------------------------------ deletion

  /** `_deleteAsset`: the transform children first, then the asset's own path when it is a file. */
  function DeleteAsset(a: Asset): (r: seq<Path>)
    ensures !a.isFolder ==> |r| > 0 && r[|r| - 1] == a.path
    decreases a
  {
    DeleteAll(a.transformChildren) + (if a.isFolder then [] else [a.path])
  }

  function DeleteAll(xs: seq<Asset>): seq<Path>
    decreases xs
  {
    if xs == [] then [] else DeleteAsset(xs[0]) + DeleteAll(xs[1..])
  }

  /** `deleteAssetFiles`: delete every transform child; the asset's own source path is not removed. */
  function DeleteAssetFiles(a: Asset): seq<Path>
  {
    DeleteAll(a.transformChildren)
  }

  /** `x` is `a` or lies below it along transform children. */
  predicate TransformReach(a: Asset, x: Asset)
    decreases a
  {
    x == a || exists i :: 0 <= i < |a.transformChildren| && TransformReach(a.transformChildren[i], x)
  }

  /** Every removed path is the path of a file in the transform subtree: folder outputs are never removed. */
  lemma {:induction false} DeleteAssetSound(a: Asset, p: Path)
    requires p in DeleteAsset(a)
    ensures exists x :: TransformReach(a, x) && !x.isFolder && x.path == p
    decreases a
  {
    if p in DeleteAll(a.transformChildren) {
      var i := DeleteAllSound(a.transformChildren, p);
      var x :| TransformReach(a.transformChildren[i], x) && !x.isFolder && x.path == p;
      assert TransformReach(a, x);
    } else {
      assert TransformReach(a, a);
    }
  }

  lemma {:induction false} DeleteAllSound(xs: seq<Asset>, p: Path) returns (i: nat)
    requires p in DeleteAll(xs)
    ensures i < |xs| && exists x :: TransformReach(xs[i], x) && !x.isFolder && x.path == p
    decreases xs
  {
    if p in DeleteAsset(xs[0]) {
      DeleteAssetSound(xs[0], p);
      i := 0;
    } else {
      var j := DeleteAllSound(xs[1..], p);
      i := j + 1;
    }
  }

  /** Every file of the transform subtree has its path removed. */
  lemma {:induction false} DeleteAssetComplete(a: Asset, x: Asset)
    requires TransformReach(a, x) && !x.isFolder
    ensures x.path in DeleteAsset(a)
    decreases a
  {
    if x != a {
      var i :| 0 <= i < |a.transformChildren| && TransformReach(a.transformChildren[i], x);
      DeleteAllComplete(a.transformChildren, i, x);
    }
  }

  lemma {:induction false} DeleteAllComplete(xs: seq<Asset>, i: nat, x: Asset)
    requires i < |xs| && TransformReach(xs[i], x) && !x.isFolder
    ensures x.path in DeleteAll(xs)
    decreases xs
  {
    if i == 0 {
      DeleteAssetComplete(xs[0], x);
    } else {
      DeleteAllComplete(xs[1..], i - 1, x);
    }
  }

  /**
   `deleteAssetFiles` removes exactly the file paths strictly below the asset
   in its transform subtree.
   */
  lemma DeleteAssetFilesExactly(a: Asset, p: Path)
    ensures p in DeleteAssetFiles(a) <==>
              exists i, x :: 0 <= i < |a.transformChildren| && TransformReach(a.transformChildren[i], x)
                && !x.isFolder && x.path == p
  {
    if p in DeleteAssetFiles(a) {
      var i := DeleteAllSound(a.transformChildren, p);
    }
    if exists i, x :: 0 <= i < |a.transformChildren| && TransformReach(a.transformChildren[i], x)
         && !x.isFolder && x.path == p {
      var i, x :| 0 <= i < |a.transformChildren| && TransformReach(a.transformChildren[i], x)
                  && !x.isFolder && x.path == p;
      DeleteAllComplete(a.transformChildren, i, x);
    }
  }

  // ---------------------------------------------------------- collection

  /**
   `deleteAndCollectAssetsToTransform`: a `normal` asset ends the walk there;
   a deleted asset has its transformed files deleted; any other asset is
   collected; then, unless the asset was `normal`, its children in order.
   */
  function Collect(a: Asset): (c: Collected)
    ensures !Live(a) ==> c == Collected([], [])
    ensures forall x :: x in c.assets ==> Collectable(x)
    ensures Collectable(a) ==> |c.assets| > 0 && c.assets[0] == a
    decreases a
  {
    if !Live(a) then Collected([], [])
    else
      var own := if IsDeleted(a) then Collected([], DeleteAssetFiles(a)) else Collected([a], []);
      Concat(own, CollectAll(a.children))
  }

  function CollectAll(xs: seq<Asset>): (c: Collected)
    ensures forall x :: x in c.assets ==> Collectable(x)
    decreases xs
  {
    if xs == [] then Collected([], []) else Concat(Collect(xs[0]), CollectAll(xs[1..]))
  }

  /** The assets the walk enters, in pre-order: it stops at `normal` assets. */
  function LiveVisits(a: Asset): seq<Asset>
    decreases a
  {
    if !Live(a) then [] else [a] + LiveVisitsAll(a.children)
  }

  function LiveVisitsAll(xs: seq<Asset>): seq<Asset>
    decreases xs
  {
    if xs == [] then [] else LiveVisits(xs[0]) + LiveVisitsAll(xs[1..])
  }

  /** `x` is reachable from `a` along children through assets none of which is `normal`. */
  predicate LiveReach(a: Asset, x: Asset)
    decreases a
  {
    Live(a) && (x == a || exists i :: 0 <= i < |a.children| && LiveReach(a.children[i], x))
  }

  /** The removals the walk issues for a sequence of entered assets: each deleted one's files, in order. */
  function DeletesOf(ns: seq<Asset>): seq<Path>
    decreases |ns|
  {
    if ns == [] then [] else (if IsDeleted(ns[0]) then DeleteAssetFiles(ns[0]) else []) + DeletesOf(ns[1..])
  }

  lemma {:induction false} DeletesOfAppend(a: seq<Asset>, b: seq<Asset>)
    ensures DeletesOf(a + b) == DeletesOf(a) + DeletesOf(b)
    decreases |a|
  {
    if a == [] {
      assert a + b == b;
    } else {
      assert (a + b)[0] == a[0] && (a + b)[1..] == a[1..] + b;
      DeletesOfAppend(a[1..], b);
    }
  }

  /**
   The collection walk is the pre-order of entered assets, filtered: the
   collected assets are its added and modified ones, in that order, and the
   removals are those of its deleted ones, in that order.
   */
  lemma {:induction false} CollectIsLivePreOrder(a: Asset)
    ensures Collect(a).assets == Filter(LiveVisits(a), x => Collectable(x))
    ensures Collect(a).removed == DeletesOf(LiveVisits(a))
    decreases a
  {
    if Live(a) {
      CollectAllIsLivePreOrder(a.children);
      FilterAppend([a], LiveVisitsAll(a.children), x => Collectable(x));
      DeletesOfAppend([a], LiveVisitsAll(a.children));
    }
  }

  lemma {:induction false} CollectAllIsLivePreOrder(xs: seq<Asset>)
    ensures CollectAll(xs).assets == Filter(LiveVisitsAll(xs), x => Collectable(x))
    ensures CollectAll(xs).removed == DeletesOf(LiveVisitsAll(xs))
    decreases xs
  {
    if xs != [] {
      CollectIsLivePreOrder(xs[0]);
      CollectAllIsLivePreOrder(xs[1..]);
      FilterAppend(LiveVisits(xs[0]), LiveVisitsAll(xs[1..]), x => Collectable(x));
      DeletesOfAppend(LiveVisits(xs[0]), LiveVisitsAll(xs[1..]));
    }
  }

  lemma {:induction false} LiveVisitsReach(a: Asset, x: Asset)
    ensures x in LiveVisits(a) <==> LiveReach(a, x)
    decreases a
  {
    if Live(a) {
      LiveVisitsAllReach(a.children, x);
    }
  }

  lemma {:induction false} LiveVisitsAllReach(xs: seq<Asset>, x: Asset)
    ensures x in LiveVisitsAll(xs) <==> exists i :: 0 <= i < |xs| && LiveReach(xs[i], x)
    decreases xs
  {
    if xs != [] {
      LiveVisitsReach(xs[0], x);
      LiveVisitsAllReach(xs[1..], x);
      if exists i :: 0 <= i < |xs| && LiveReach(xs[i], x) {
        var i :| 0 <= i < |xs| && LiveReach(xs[i], x);
        if i > 0 {
          assert LiveReach(xs[1..][i - 1], x);
        }
      }
      if exists i :: 0 <= i < |xs[1..]| && LiveReach(xs[1..][i], x) {
        var i :| 0 <= i < |xs[1..]| && LiveReach(xs[1..][i], x);
        assert LiveReach(xs[i + 1], x);
      }
    }
  }

  /**
   An asset is collected iff it is added or modified and reachable without
   passing a `normal` asset: `normal` subtrees are skipped whole, while the
   children of deleted assets are still visited.
   */
  lemma CollectMembership(a: Asset, x: Asset)
    ensures x in Collect(a).assets <==> Collectable(x) && LiveReach(a, x)
  {
    CollectIsLivePreOrder(a);
    LiveVisitsReach(a, x);
  }
}
