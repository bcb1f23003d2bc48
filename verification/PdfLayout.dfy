/** Spatial grouping of the text items of one page: bands by y, clusters by x inside a band,
    and a typed block with a bounding box for each cluster. Coordinates are real numbers. */
module PdfLayout {
  import opened Options
  import opened Sequences
  import opened PdfVariance

  datatype TextItem = TextItem(
    text: string, x: real, y: real, width: Option<real>, height: Option<real>, fontSize: Option<real>)

  datatype BlockType = Table | Header | Paragraph

  datatype Box = Box(xMin: real, xMax: real, yMin: real, yMax: real)

  datatype TextBlock = TextBlock(
    text: string, blockType: BlockType, pageNumber: nat, items: seq<TextItem>, box: Box)

  const Y_THRESHOLD: real := 12.0

  const BY_X: TextItem -> real := (i: TextItem) => i.x
  const BY_Y: TextItem -> real := (i: TextItem) => i.y

  // ----- Array.sort with a numeric comparator: stable -----

  function Insert(item: TextItem, items: seq<TextItem>, key: TextItem -> real): seq<TextItem> {
    if items == [] || key(item) <= key(items[0]) then [item] + items
    else [items[0]] + Insert(item, items[1..], key)
  }

  function SortBy(items: seq<TextItem>, key: TextItem -> real): seq<TextItem> {
    if items == [] then [] else Insert(items[0], SortBy(items[1..], key), key)
  }

  ghost predicate Sorted(items: seq<TextItem>, key: TextItem -> real) {
    forall i, j :: 0 <= i < j < |items| ==> key(items[i]) <= key(items[j])
  }

  lemma {:induction false} InsertKeeps(item: TextItem, items: seq<TextItem>, key: TextItem -> real)
    ensures multiset(Insert(item, items, key)) == multiset(items) + multiset{item}
  {
    if !(items == [] || key(item) <= key(items[0])) {
      InsertKeeps(item, items[1..], key);
      assert items == [items[0]] + items[1..];
    }
  }

  lemma {:induction false} InsertSorts(item: TextItem, items: seq<TextItem>, key: TextItem -> real)
    requires Sorted(items, key)
    ensures Sorted(Insert(item, items, key), key)
    ensures forall other :: other in Insert(item, items, key) ==> other == item || other in items
  {
    if !(items == [] || key(item) <= key(items[0])) {
      InsertSorts(item, items[1..], key);
      assert forall other :: other in items[1..] ==> key(items[0]) <= key(other);
    }
  }

  lemma {:induction false} SortSorts(items: seq<TextItem>, key: TextItem -> real)
    ensures Sorted(SortBy(items, key), key)
    ensures multiset(SortBy(items, key)) == multiset(items)
  {
    if items != [] {
      SortSorts(items[1..], key);
      InsertSorts(items[0], SortBy(items[1..], key), key);
      InsertKeeps(items[0], SortBy(items[1..], key), key);
      assert items == [items[0]] + items[1..];
    }
  }

  // ----- bands -----

  function Abs(r: real): real { if r < 0.0 then -r else r }

  /** The bands still to come, when `band` is open and anchored at its first item. */
  function Bands(band: seq<TextItem>, rest: seq<TextItem>): seq<seq<TextItem>>
    requires band != []
    decreases |rest|
  {
    if rest == [] then [band]
    else if Abs(rest[0].y - band[0].y) > Y_THRESHOLD then [band] + Bands([rest[0]], rest[1..])
    else Bands(band + [rest[0]], rest[1..])
  }

  function YBands(items: seq<TextItem>): seq<seq<TextItem>> {
    if items == [] then [] else Bands([items[0]], items[1..])
  }

  method GroupIntoYBands(items: seq<TextItem>) returns (bands: seq<seq<TextItem>>)
    ensures bands == YBands(items)
  {
    if |items| == 0 { return []; }
    bands := [];
    var currentBand: seq<TextItem> := [];
    var currentY := items[0].y;
    for i := 0 to |items|
      invariant i == 0 ==> bands == [] && currentBand == [] && currentY == items[0].y
      invariant i > 0 ==> currentBand != [] && currentY == currentBand[0].y
      invariant i > 0 ==> bands + Bands(currentBand, items[i..]) == YBands(items)
    {
      var item := items[i];
      ghost var open := bands;
      assert items[i..][0] == item && items[i..][1..] == items[i + 1..];
      assert i == 0 ==> currentBand + [item] == [items[0]];
      if Abs(item.y - currentY) > Y_THRESHOLD {
        if |currentBand| > 0 { bands := bands + [currentBand]; }
        assert open + ([currentBand] + Bands([item], items[i + 1..])) == bands + Bands([item], items[i + 1..]);
        currentBand := [item];
        currentY := item.y;
      } else {
        currentBand := currentBand + [item];
      }
    }
    if |currentBand| > 0 { bands := bands + [currentBand]; }
  }

  ghost predicate Anchored(band: seq<TextItem>) {
    forall k :: 0 <= k < |band| ==> Abs(band[k].y - band[0].y) <= Y_THRESHOLD
  }

  /** A greedy banding: nothing lost, bands anchored at their first item, and each new anchor
      out of reach of the one before. */
  ghost predicate Banding(bands: seq<seq<TextItem>>, items: seq<TextItem>) {
    && Flatten(bands) == items
    && (forall i :: 0 <= i < |bands| ==> bands[i] != [])
    && (forall i :: 0 <= i < |bands| ==> Anchored(bands[i]))
    && (forall i, j :: 0 <= i && j == i + 1 < |bands| ==> Abs(bands[j][0].y - bands[i][0].y) > Y_THRESHOLD)
  }

  lemma OneMoreBand(band: seq<TextItem>, more: seq<seq<TextItem>>, rest: seq<TextItem>)
    requires band != [] && Anchored(band) && Banding(more, rest) && more != []
    requires Abs(more[0][0].y - band[0].y) > Y_THRESHOLD
    ensures Banding([band] + more, band + rest)
  {
    hide Anchored;
    var all := [band] + more;
    assert all[1..] == more;
    forall i, j | 0 <= i && j == i + 1 < |all| ensures Abs(all[j][0].y - all[i][0].y) > Y_THRESHOLD {
      if i > 0 {
        assert all[i] == more[i - 1] && all[j] == more[j - 1];
      }
    }
  }

  lemma {:induction false} BandsAreGreedy(band: seq<TextItem>, rest: seq<TextItem>)
    requires band != [] && Anchored(band)
    ensures Banding(Bands(band, rest), band + rest)
    ensures Bands(band, rest)[0][0] == band[0]
    decreases |rest|
  {
    if rest == [] {
      assert [band][1..] == [] && band + rest == band;
    } else if Abs(rest[0].y - band[0].y) > Y_THRESHOLD {
      BandsAreGreedy([rest[0]], rest[1..]);
      assert [rest[0]] + rest[1..] == rest;
      OneMoreBand(band, Bands([rest[0]], rest[1..]), rest);
    } else {
      BandsAreGreedy(band + [rest[0]], rest[1..]);
      assert band + [rest[0]] + rest[1..] == band + rest;
    }
  }

  lemma YBandsAreGreedy(items: seq<TextItem>)
    ensures Banding(YBands(items), items)
  {
    if items != [] {
      BandsAreGreedy([items[0]], items[1..]);
      assert [items[0]] + items[1..] == items;
    }
  }

  /** Pieces of a sorted sequence are sorted, and earlier pieces come first. */
  lemma PiecesSorted(pieces: seq<seq<TextItem>>, key: TextItem -> real, i: nat, j: nat)
    requires Sorted(Flatten(pieces), key) && i < |pieces| && j < |pieces|
    ensures Sorted(pieces[i], key)
    ensures i < j ==> forall a, b :: a in pieces[i] && b in pieces[j] ==> key(a) <= key(b)
  {
    forall k, l | 0 <= k < l < |pieces[i]| ensures key(pieces[i][k]) <= key(pieces[i][l]) {
      FlattenAt(pieces, i, k);
      FlattenAt(pieces, i, l);
    }
    if i < j {
      FlattenOffsets(pieces, i, j);
      forall a, b | a in pieces[i] && b in pieces[j] ensures key(a) <= key(b) {
        var k :| 0 <= k < |pieces[i]| && pieces[i][k] == a;
        var l :| 0 <= l < |pieces[j]| && pieces[j][l] == b;
        FlattenAt(pieces, i, k);
        FlattenAt(pieces, j, l);
      }
    }
  }

  /** For items sorted by y: a band lies within 12 above its anchor, and anchors are pairwise
      more than 12 apart. */
  lemma BandSpread(bands: seq<seq<TextItem>>, items: seq<TextItem>, i: nat)
    requires Banding(bands, items) && Sorted(items, BY_Y) && i < |bands|
    ensures forall k :: 0 <= k < |bands[i]| ==> bands[i][0].y <= bands[i][k].y <= bands[i][0].y + 12.0
  {
    PiecesSorted(bands, BY_Y, i, i);
    var band := bands[i];
    assert Anchored(band);
    forall k | 0 <= k < |band| ensures band[0].y <= band[k].y <= band[0].y + 12.0 {
      assert k > 0 ==> BY_Y(band[0]) <= BY_Y(band[k]);
    }
  }

  lemma {:induction false} AnchorsApart(bands: seq<seq<TextItem>>, items: seq<TextItem>, i: nat, j: nat)
    requires Banding(bands, items) && Sorted(items, BY_Y) && i < j < |bands|
    ensures bands[j][0].y - bands[i][0].y > 12.0
    decreases j
  {
    PiecesSorted(bands, BY_Y, j - 1, j);
    assert BY_Y(bands[j - 1][0]) <= BY_Y(bands[j][0]) by {
      assert bands[j - 1][0] in bands[j - 1] && bands[j][0] in bands[j];
    }
    assert Abs(bands[j][0].y - bands[j - 1][0].y) > Y_THRESHOLD;
    if i < j - 1 {
      AnchorsApart(bands, items, i, j - 1);
    }
  }

  ghost predicate Narrow(group: seq<TextItem>) {
    forall a, b :: a in group && b in group ==> a.y - b.y <= 12.0
  }

  /** Every item is in some group, and no group spreads over more than 12. */
  ghost predicate Covers(groups: seq<seq<TextItem>>, items: seq<TextItem>) {
    && (forall item :: item in items ==> exists g :: 0 <= g < |groups| && item in groups[g])
    && (forall g :: 0 <= g < |groups| ==> Narrow(groups[g]))
  }

  ghost function GroupOf(item: TextItem, groups: seq<seq<TextItem>>): (g: nat)
    requires exists g :: 0 <= g < |groups| && item in groups[g]
    ensures g < |groups| && item in groups[g]
  {
    var g :| 0 <= g < |groups| && item in groups[g];
    g
  }

  lemma SameMembers(a: seq<TextItem>, b: seq<TextItem>)
    requires multiset(a) == multiset(b)
    ensures forall item :: item in a <==> item in b
  {
    forall item ensures item in a <==> item in b {
      assert item in a <==> item in multiset(a);
      assert item in b <==> item in multiset(b);
    }
  }

  lemma BandsCover(page: seq<TextItem>)
    ensures Covers(YBands(SortBy(page, BY_Y)), page)
  {
    var items := SortBy(page, BY_Y);
    var bands := YBands(items);
    SortSorts(page, BY_Y);
    SameMembers(items, page);
    YBandsAreGreedy(items);
    forall item | item in page ensures exists g :: 0 <= g < |bands| && item in bands[g] {
      FlattenMember(bands, item);
    }
    forall g | 0 <= g < |bands| ensures Narrow(bands[g]) {
      BandSpread(bands, items, g);
    }
  }

  lemma AnchorsNeedOneGroupEach(bands: seq<seq<TextItem>>, items: seq<TextItem>, groups: seq<seq<TextItem>>)
    requires Banding(bands, items) && Sorted(items, BY_Y)
    requires forall i :: 0 <= i < |bands| ==> exists g :: 0 <= g < |groups| && bands[i][0] in groups[g]
    requires forall g :: 0 <= g < |groups| ==> Narrow(groups[g])
    ensures |bands| <= |groups|
  {
    var f := seq(|bands|, i requires 0 <= i < |bands| => GroupOf(bands[i][0], groups));
    forall i, j | 0 <= i < j < |f| ensures f[i] != f[j] {
      AnchorsApart(bands, items, i, j);
      assert Narrow(groups[f[i]]);
    }
    Pigeonhole(f, |groups|);
  }

  /** Banding is optimal: it covers the page, and no cover whatever by groups of y-spread at
      most 12, contiguous or not, overlapping or not, uses fewer groups. */
  lemma BandingIsOptimal(page: seq<TextItem>, groups: seq<seq<TextItem>>)
    requires Covers(groups, page)
    ensures var bands := YBands(SortBy(page, BY_Y)); Covers(bands, page) && |bands| <= |groups|
  {
    var items := SortBy(page, BY_Y);
    var bands := YBands(items);
    BandsCover(page);
    SortSorts(page, BY_Y);
    SameMembers(items, page);
    YBandsAreGreedy(items);
    forall i | 0 <= i < |bands| ensures bands[i][0] in page {
      FlattenMember(bands, bands[i][0]);
    }
    AnchorsNeedOneGroupEach(bands, items, groups);
  }

  // ----- clusters -----

  function Last(items: seq<TextItem>): TextItem
    requires items != []
  {
    items[|items| - 1]
  }

  function Clusters(cluster: seq<TextItem>, rest: seq<TextItem>): seq<seq<TextItem>>
    requires cluster != []
    decreases |rest|
  {
    if rest == [] then [cluster]
    else if rest[0].x - Last(cluster).x > X_GAP_THRESHOLD then [cluster] + Clusters([rest[0]], rest[1..])
    else Clusters(cluster + [rest[0]], rest[1..])
  }

  function XClusters(band: seq<TextItem>): seq<seq<TextItem>> {
    var sortedByX := SortBy(band, BY_X);
    if sortedByX == [] then [] else Clusters([sortedByX[0]], sortedByX[1..])
  }

  method GroupByXGaps(band: seq<TextItem>) returns (clusters: seq<seq<TextItem>>)
    ensures clusters == XClusters(band)
  {
    hide Insert;
    var sortedByX := SortBy(band, BY_X);
    SortSorts(band, BY_X);
    assert |sortedByX| == |multiset(sortedByX)| && |band| == |multiset(band)|;
    if |band| == 0 { return []; }
    hide SortBy;
    clusters := [];
    var currentCluster: seq<TextItem> := [];
    var lastX := sortedByX[0].x;
    for i := 0 to |sortedByX|
      invariant i == 0 ==> clusters == [] && currentCluster == [] && lastX == sortedByX[0].x
      invariant i > 0 ==> currentCluster != [] && lastX == Last(currentCluster).x
      invariant i > 0 ==> clusters + Clusters(currentCluster, sortedByX[i..]) == XClusters(band)
    {
      var item := sortedByX[i];
      ghost var open := clusters;
      assert sortedByX[i..][0] == item && sortedByX[i..][1..] == sortedByX[i + 1..];
      assert i == 0 ==> currentCluster + [item] == [sortedByX[0]];
      if item.x - lastX > X_GAP_THRESHOLD {
        if |currentCluster| > 0 { clusters := clusters + [currentCluster]; }
        assert open + ([currentCluster] + Clusters([item], sortedByX[i + 1..]))
            == clusters + Clusters([item], sortedByX[i + 1..]);
        currentCluster := [item];
      } else {
        currentCluster := currentCluster + [item];
      }
      lastX := item.x;
    }
    if |currentCluster| > 0 { clusters := clusters + [currentCluster]; }
  }

  ghost predicate ShortSteps(cluster: seq<TextItem>) {
    forall k, l :: 0 <= k && l == k + 1 < |cluster| ==> cluster[l].x - cluster[k].x <= X_GAP_THRESHOLD
  }

  /** Nothing lost, short steps inside a cluster, a long step between neighbours. */
  ghost predicate Clustering(clusters: seq<seq<TextItem>>, items: seq<TextItem>) {
    && Flatten(clusters) == items
    && (forall i :: 0 <= i < |clusters| ==> clusters[i] != [])
    && (forall i :: 0 <= i < |clusters| ==> ShortSteps(clusters[i]))
    && (forall i, j :: 0 <= i && j == i + 1 < |clusters| ==>
          clusters[j][0].x - Last(clusters[i]).x > X_GAP_THRESHOLD)
  }

  lemma OneMoreCluster(cluster: seq<TextItem>, more: seq<seq<TextItem>>, rest: seq<TextItem>)
    requires cluster != [] && ShortSteps(cluster) && Clustering(more, rest) && more != []
    requires more[0][0].x - Last(cluster).x > X_GAP_THRESHOLD
    ensures Clustering([cluster] + more, cluster + rest)
  {
    hide ShortSteps;
    var all := [cluster] + more;
    assert all[1..] == more;
    forall i, j | 0 <= i && j == i + 1 < |all| ensures all[j][0].x - Last(all[i]).x > X_GAP_THRESHOLD {
      if i > 0 {
        assert all[i] == more[i - 1] && all[j] == more[j - 1];
      }
    }
  }

  lemma {:induction false} ClustersSplitAtGaps(cluster: seq<TextItem>, rest: seq<TextItem>)
    requires cluster != [] && ShortSteps(cluster)
    ensures Clustering(Clusters(cluster, rest), cluster + rest)
    ensures Clusters(cluster, rest)[0][0] == cluster[0]
    decreases |rest|
  {
    if rest == [] {
      assert [cluster][1..] == [] && cluster + rest == cluster;
    } else if rest[0].x - Last(cluster).x > X_GAP_THRESHOLD {
      ClustersSplitAtGaps([rest[0]], rest[1..]);
      assert [rest[0]] + rest[1..] == rest;
      OneMoreCluster(cluster, Clusters([rest[0]], rest[1..]), rest);
    } else {
      ClustersSplitAtGaps(cluster + [rest[0]], rest[1..]);
      assert cluster + [rest[0]] + rest[1..] == cluster + rest;
    }
  }

  lemma XClustersSplitAtGaps(band: seq<TextItem>)
    ensures Clustering(XClusters(band), SortBy(band, BY_X))
  {
    var sortedByX := SortBy(band, BY_X);
    if sortedByX != [] {
      ClustersSplitAtGaps([sortedByX[0]], sortedByX[1..]);
      assert [sortedByX[0]] + sortedByX[1..] == sortedByX;
    }
  }

  // ----- clusters are connected components -----

  predicate Near(a: TextItem, b: TextItem) { Abs(a.x - b.x) <= 25.0 }

  ghost predicate Path(p: seq<TextItem>, band: seq<TextItem>) {
    && p != []
    && (forall k :: 0 <= k < |p| ==> p[k] in band)
    && (forall k, l :: 0 <= k && l == k + 1 < |p| ==> Near(p[k], p[l]))
  }

  /** Reachable inside the band by steps of x-distance at most 25. */
  ghost predicate Connected(band: seq<TextItem>, a: TextItem, b: TextItem) {
    exists p :: Path(p, band) && p[0] == a && Last(p) == b
  }

  lemma EndsEnclose(c: seq<TextItem>, item: TextItem)
    requires Sorted(c, BY_X) && item in c
    ensures c[0].x <= item.x <= c[|c| - 1].x
  {
    var k :| 0 <= k < |c| && c[k] == item;
    assert k < |c| - 1 ==> BY_X(c[k]) <= BY_X(c[|c| - 1]);
    assert k > 0 ==> BY_X(c[0]) <= BY_X(c[k]);
  }

  lemma {:induction false} ClustersApart(
    clusters: seq<seq<TextItem>>, items: seq<TextItem>, i: nat, j: nat, a: TextItem, b: TextItem)
    requires Clustering(clusters, items) && Sorted(items, BY_X) && i < j < |clusters|
    requires a in clusters[i] && b in clusters[j]
    ensures b.x - a.x > 25.0
    decreases j
  {
    if i < j - 1 {
      ClustersApart(clusters, items, i, j - 1, a, clusters[j - 1][0]);
      PiecesSorted(clusters, BY_X, j - 1, j);
      assert BY_X(clusters[j - 1][0]) <= BY_X(b);
    } else {
      PiecesSorted(clusters, BY_X, i, j);
      PiecesSorted(clusters, BY_X, j, i);
      EndsEnclose(clusters[i], a);
      EndsEnclose(clusters[j], b);
    }
  }

  ghost predicate NearSteps(cluster: seq<TextItem>) {
    forall m, n :: 0 <= m && n == m + 1 < |cluster| ==> Near(cluster[m], cluster[n]) && Near(cluster[n], cluster[m])
  }

  lemma ShortStepsAreNear(cluster: seq<TextItem>)
    requires ShortSteps(cluster) && Sorted(cluster, BY_X)
    ensures NearSteps(cluster)
  {
    forall m, n | 0 <= m && n == m + 1 < |cluster|
      ensures Near(cluster[m], cluster[n]) && Near(cluster[n], cluster[m])
    {
      assert BY_X(cluster[m]) <= BY_X(cluster[n]);
    }
  }

  /** Walking along a cluster, forwards or backwards, is a path. */
  lemma ConnectedInside(band: seq<TextItem>, cluster: seq<TextItem>, k: nat, l: nat)
    requires k < |cluster| && l < |cluster| && NearSteps(cluster) && forall c :: c in cluster ==> c in band
    ensures Connected(band, cluster[k], cluster[l])
  {
    hide Near;
    if k <= l {
      var p := cluster[k..l + 1];
      assert Path(p, band) && p[0] == cluster[k] && Last(p) == cluster[l];
    } else {
      var p := seq(k - l + 1, m requires 0 <= m <= k - l => cluster[k - m]);
      forall m, n | 0 <= m && n == m + 1 < |p| ensures Near(p[m], p[n]) {
        assert p[m] == cluster[k - m] && p[n] == cluster[k - n];
      }
      assert Path(p, band) && p[0] == cluster[k] && Last(p) == cluster[l];
    }
  }

  lemma {:induction false} PathStays(
    clusters: seq<seq<TextItem>>, items: seq<TextItem>, p: seq<TextItem>, i: nat, k: nat)
    requires Clustering(clusters, items) && Sorted(items, BY_X) && Path(p, items)
    requires i < |clusters| && p[0] in clusters[i] && k < |p|
    ensures p[k] in clusters[i]
    decreases k
  {
    if k > 0 {
      PathStays(clusters, items, p, i, k - 1);
      assert Near(p[k - 1], p[k]);
      FlattenMember(clusters, p[k]);
      var j :| 0 <= j < |clusters| && p[k] in clusters[j];
      if i < j {
        ClustersApart(clusters, items, i, j, p[k - 1], p[k]);
      } else if j < i {
        ClustersApart(clusters, items, j, i, p[k], p[k - 1]);
      }
    }
  }

  /** The clusters of a band are exactly the connected components of "x-distance <= 25". */
  lemma ClustersAreComponents(band: seq<TextItem>, i: nat, j: nat, a: TextItem, b: TextItem)
    requires i < |XClusters(band)| && j < |XClusters(band)|
    requires a in XClusters(band)[i] && b in XClusters(band)[j]
    ensures Connected(band, a, b) <==> i == j
  {
    var clusters, items := XClusters(band), SortBy(band, BY_X);
    XClustersSplitAtGaps(band);
    SortSorts(band, BY_X);
    SameMembers(items, band);
    if i == j {
      PiecesSorted(clusters, BY_X, i, i);
      forall c | c in clusters[i] ensures c in band {
        FlattenMember(clusters, c);
      }
      var k :| 0 <= k < |clusters[i]| && clusters[i][k] == a;
      var l :| 0 <= l < |clusters[i]| && clusters[i][l] == b;
      ShortStepsAreNear(clusters[i]);
      ConnectedInside(band, clusters[i], k, l);
    } else if Connected(band, a, b) {
      var p :| Path(p, band) && p[0] == a && Last(p) == b;
      PathStays(clusters, items, p, i, |p| - 1);
      if i < j {
        ClustersApart(clusters, items, i, j, b, b);
      } else {
        ClustersApart(clusters, items, j, i, b, b);
      }
    }
  }
}
