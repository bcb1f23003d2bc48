/** In which order the blocks of a page, and the items of a block, are read. */
module PdfReading {
  import opened Sequences
  import opened Strings
  import opened PdfLayout
  import opened PdfBlocks

  // ----- equal coordinates keep their order -----

  function At(key: TextItem -> real, v: real): TextItem -> bool {
    (item: TextItem) => key(item) == v
  }

  lemma {:induction false} InsertIsStable(item: TextItem, items: seq<TextItem>, key: TextItem -> real, v: real)
    requires Sorted(items, key)
    ensures Filter(At(key, v), Insert(item, items, key))
         == (if key(item) == v then [item] else []) + Filter(At(key, v), items)
  {
    if !(items == [] || key(item) <= key(items[0])) {
      InsertIsStable(item, items[1..], key, v);
      var inserted := [items[0]] + Insert(item, items[1..], key);
      assert inserted[1..] == Insert(item, items[1..], key);
    } else {
      var inserted := [item] + items;
      assert inserted[1..] == items;
    }
  }

  /** Items with the same coordinate come out of the sort in the order they went in. */
  lemma {:induction false} SortIsStable(items: seq<TextItem>, key: TextItem -> real, v: real)
    ensures Filter(At(key, v), SortBy(items, key)) == Filter(At(key, v), items)
  {
    if items != [] {
      SortIsStable(items[1..], key, v);
      SortSorts(items[1..], key);
      InsertIsStable(items[0], SortBy(items[1..], key), key, v);
    }
  }

  // ----- the blocks are the clusters of the bands, in order -----

  function ItemLists(blocks: seq<TextBlock>): seq<seq<TextItem>> {
    seq(|blocks|, i requires 0 <= i < |blocks| => blocks[i].items)
  }

  /** The clusters of the first `n` bands, band after band. */
  function ClustersOf(bands: seq<seq<TextItem>>, n: nat): seq<seq<seq<TextItem>>>
    requires n <= |bands|
  {
    seq(n, i requires 0 <= i < n => XClusters(bands[i]))
  }

  /** The first `n` bands, each from left to right. */
  function Lines(bands: seq<seq<TextItem>>, n: nat): seq<seq<TextItem>>
    requires n <= |bands|
  {
    seq(n, i requires 0 <= i < n => SortBy(bands[i], BY_X))
  }

  lemma ItemListsAppend(a: seq<TextBlock>, b: seq<TextBlock>)
    ensures ItemLists(a + b) == ItemLists(a) + ItemLists(b)
  {
  }

  lemma BlockItems(cluster: seq<TextItem>, pageNumber: nat)
    requires cluster != []
    ensures ItemLists([Block(cluster, pageNumber)]) == [cluster]
  {
    hide DetectBlockType, ComputeBoundingBox, Join;
  }

  lemma {:induction false} ClusterItems(clusters: seq<seq<TextItem>>, n: nat, pageNumber: nat)
    requires n <= |clusters| && forall i :: 0 <= i < |clusters| ==> clusters[i] != []
    ensures ItemLists(ClusterBlocks(clusters, n, pageNumber)) == clusters[..n]
  {
    hide Block;
    if n > 0 {
      ClusterItems(clusters, n - 1, pageNumber);
      BlockItems(clusters[n - 1], pageNumber);
      ItemListsAppend(ClusterBlocks(clusters, n - 1, pageNumber), [Block(clusters[n - 1], pageNumber)]);
    }
  }

  lemma NoBlocks(bands: seq<seq<TextItem>>, pageNumber: nat)
    ensures ItemLists(BandBlocks(bands, 0, pageNumber)) == [] && Flatten(ClustersOf(bands, 0)) == []
    ensures Flatten(Lines(bands, 0)) == []
  {
  }

  lemma {:induction false} BandItems(bands: seq<seq<TextItem>>, n: nat, pageNumber: nat)
    requires n <= |bands|
    ensures ItemLists(BandBlocks(bands, n, pageNumber)) == Flatten(ClustersOf(bands, n))
  {
    hide XClusters, ClusterBlocks, BandBlocks, Flatten;
    if n > 0 {
      var clusters := XClusters(bands[n - 1]);
      BandItems(bands, n - 1, pageNumber);
      BandStep(bands, n, pageNumber);
      XClustersSplitAtGaps(bands[n - 1]);
      ClusterItems(clusters, |clusters|, pageNumber);
      assert clusters[..|clusters|] == clusters;
      ItemListsAppend(BandBlocks(bands, n - 1, pageNumber), ClusterBlocks(clusters, |clusters|, pageNumber));
      assert ClustersOf(bands, n) == ClustersOf(bands, n - 1) + [clusters];
      FlattenPush(ClustersOf(bands, n - 1), clusters);
    } else {
      NoBlocks(bands, pageNumber);
    }
  }

  lemma NothingFlat()
    ensures Flatten<TextItem>([]) == []
  {
  }

  lemma {:induction false} ContentsAreLists(blocks: seq<TextBlock>)
    ensures Contents(blocks) == Flatten(ItemLists(blocks))
  {
    hide Flatten;
    if blocks == [] {
      NothingFlat();
    } else {
      var front, last := blocks[..|blocks| - 1], blocks[|blocks| - 1];
      ContentsAreLists(front);
      assert ItemLists(blocks) == ItemLists(front) + [last.items];
      FlattenPush(ItemLists(front), last.items);
    }
  }

  lemma {:induction false} ClustersFlatten(bands: seq<seq<TextItem>>, n: nat)
    requires n <= |bands|
    ensures Flatten(Flatten(ClustersOf(bands, n))) == Flatten(Lines(bands, n))
  {
    hide XClusters, SortBy, Flatten;
    if n > 0 {
      ClustersFlatten(bands, n - 1);
      XClustersSplitAtGaps(bands[n - 1]);
      assert ClustersOf(bands, n) == ClustersOf(bands, n - 1) + [XClusters(bands[n - 1])];
      assert Lines(bands, n) == Lines(bands, n - 1) + [SortBy(bands[n - 1], BY_X)];
      FlattenPush(ClustersOf(bands, n - 1), XClusters(bands[n - 1]));
      FlattenPush(Lines(bands, n - 1), SortBy(bands[n - 1], BY_X));
      FlattenAppend(Flatten(ClustersOf(bands, n - 1)), XClusters(bands[n - 1]));
    } else {
      NoBlocks(bands, 0);
      NothingFlat();
    }
  }

  /** The blocks are the clusters of the first band, then those of the next, and so on; so read one
      after the other they give the bands in order, each from left to right. */
  lemma ReadingOrder(items: seq<TextItem>, pageNumber: nat)
    ensures var bands := YBands(SortBy(items, BY_Y));
      && ItemLists(Layout(items, pageNumber)) == Flatten(ClustersOf(bands, |bands|))
      && Contents(Layout(items, pageNumber)) == Flatten(Lines(bands, |bands|))
  {
    hide YBands, SortBy, Contents, ItemLists, ClustersOf, Lines;
    var bands := YBands(SortBy(items, BY_Y));
    BandItems(bands, |bands|, pageNumber);
    ContentsAreLists(Layout(items, pageNumber));
    ClustersFlatten(bands, |bands|);
  }

  // ----- the same without bands and clusters -----

  /** The piece and the place in it where position `p` of the flattened list lies. */
  lemma {:induction false} FlattenPlace(xss: seq<seq<TextItem>>, p: nat) returns (i: nat, k: nat)
    requires p < |Flatten(xss)|
    ensures i < |xss| && k < |xss[i]| && p == |Flatten(xss[..i])| + k && Flatten(xss)[p] == xss[i][k]
  {
    if p < |xss[0]| {
      i, k := 0, p;
      assert xss[..0] == [];
    } else {
      i, k := FlattenPlace(xss[1..], p - |xss[0]|);
      assert xss[..i + 1][1..] == xss[1..][..i];
      i := i + 1;
    }
  }

  lemma PlacesAscend(xss: seq<seq<TextItem>>, i: nat, k: nat, j: nat, l: nat)
    requires i < |xss| && k < |xss[i]| && j < |xss| && l < |xss[j]|
    requires |Flatten(xss[..i])| + k < |Flatten(xss[..j])| + l
    ensures i < j || (i == j && k < l)
  {
    hide Flatten;
    if j < i {
      FlattenOffsets(xss, j, i);
    }
  }

  lemma OnLine(items: seq<TextItem>, i: nat, item: TextItem)
    requires i < |YBands(SortBy(items, BY_Y))| && item in SortBy(YBands(SortBy(items, BY_Y))[i], BY_X)
    ensures var band := YBands(SortBy(items, BY_Y))[i];
      band != [] && band[0].y <= item.y <= band[0].y + 12.0
  {
    hide SortBy, YBands;
    var band := YBands(SortBy(items, BY_Y))[i];
    SortSorts(band, BY_X);
    SameMembers(SortBy(band, BY_X), band);
    BandIsFlat(items, i);
  }

  lemma LinesDescend(items: seq<TextItem>, i: nat, j: nat)
    requires i < j < |YBands(SortBy(items, BY_Y))|
    ensures var bands := YBands(SortBy(items, BY_Y));
      bands[i] != [] && bands[j] != [] && bands[j][0].y - bands[i][0].y > 12.0
  {
    hide SortBy, YBands;
    SortSorts(items, BY_Y);
    YBandsAreGreedy(SortBy(items, BY_Y));
    AnchorsApart(YBands(SortBy(items, BY_Y)), SortBy(items, BY_Y), i, j);
  }

  /** Of two items of a page the one that is read earlier has the smaller y, or their y differ by
      at most 12 and it is not to the right of the other. */
  lemma EarlierIsHigherOrLeft(items: seq<TextItem>, pageNumber: nat, p: nat, q: nat)
    requires p < q < |Contents(Layout(items, pageNumber))|
    ensures var a, b := Contents(Layout(items, pageNumber))[p], Contents(Layout(items, pageNumber))[q];
      a.y < b.y || (-12.0 <= a.y - b.y <= 12.0 && a.x <= b.x)
  {
    hide SortBy, YBands, Flatten, Contents, Layout;
    var bands := YBands(SortBy(items, BY_Y));
    var lines := Lines(bands, |bands|);
    ReadingOrder(items, pageNumber);
    var i, k := FlattenPlace(lines, p);
    var j, l := FlattenPlace(lines, q);
    PlacesAscend(lines, i, k, j, l);
    var a, b := lines[i][k], lines[j][l];
    assert a in lines[i] && b in lines[j];
    OnLine(items, i, a);
    OnLine(items, j, b);
    if i < j {
      LinesDescend(items, i, j);
    } else {
      SortSorts(bands[i], BY_X);
      assert BY_X(lines[i][k]) <= BY_X(lines[i][l]);
    }
  }

  // ----- the text of a block -----

  lemma ClusterIsSorted(band: seq<TextItem>, j: nat)
    requires j < |XClusters(band)|
    ensures Sorted(XClusters(band)[j], BY_X)
  {
    hide SortBy, XClusters;
    XClustersSplitAtGaps(band);
    SortSorts(band, BY_X);
    PiecesSorted(XClusters(band), BY_X, j, j);
  }

  /** The items of a block run from left to right, and its text is theirs in this order: each stands
      at the sum of the lengths before it, one more for each, with a blank in between. */
  lemma BlockReadsLeftToRight(items: seq<TextItem>, pageNumber: nat, b: TextBlock, k: nat)
    requires b in Layout(items, pageNumber) && k < |b.items|
    ensures forall i, j :: 0 <= i < j < |b.items| ==> b.items[i].x <= b.items[j].x
    ensures var at := Offset(Texts(b.items), k);
      && at + |b.items[k].text| <= |b.text| && b.text[at..at + |b.items[k].text|] == b.items[k].text
      && (k > 0 ==> at > 0 && b.text[at - 1] == ' ')
      && |b.text| + 1 == Offset(Texts(b.items), |b.items|)
  {
    hide SortBy, YBands, XClusters, DetectBlockType, ComputeBoundingBox, Join, Offset;
    var bands := YBands(SortBy(items, BY_Y));
    BlockOfBand(bands, |bands|, pageNumber, b);
    var i, j :| 0 <= i < |bands| && 0 <= j < |XClusters(bands[i])|
                && XClusters(bands[i])[j] != [] && b == Block(XClusters(bands[i])[j], pageNumber);
    ClusterIsSorted(bands[i], j);
    forall m, n | 0 <= m < n < |b.items| ensures b.items[m].x <= b.items[n].x {
      assert BY_X(b.items[m]) <= BY_X(b.items[n]);
    }
    JoinPlaces(Texts(b.items), k);
  }
}
