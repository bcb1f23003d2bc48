/** The blocks of a page: typing, bounding boxes, and what the layout keeps of its items. */
module PdfBlocks {
  import opened Options
  import opened Sequences
  import opened Strings
  import opened PdfVariance
  import opened PdfLayout

  function Xs(items: seq<TextItem>): seq<real> {
    seq(|items|, i requires 0 <= i < |items| => items[i].x)
  }

  function Ys(items: seq<TextItem>): seq<real> {
    seq(|items|, i requires 0 <= i < |items| => items[i].y)
  }

  function OrZero(r: Option<real>): real { if r.Some? then r.value else 0.0 }

  function FontSizes(items: seq<TextItem>): seq<real> {
    seq(|items|, i requires 0 <= i < |items| => OrZero(items[i].fontSize))
  }

  function DetectBlockType(items: seq<TextItem>): BlockType {
    if |items| < 3 then Paragraph
    else if ComputeVariance(Xs(items)) > 5000.0 && ComputeVariance(Ys(items)) < 100.0 then Table
    else if Sum(FontSizes(items)) / |items| as real > 14.0 && |items| <= 2 then Header
    else Paragraph
  }

  function Min(vs: seq<real>): (m: real)
    requires vs != []
    ensures m in vs && forall v :: v in vs ==> m <= v
  {
    if |vs| == 1 then vs[0]
    else
      var m := Min(vs[1..]);
      assert vs == [vs[0]] + vs[1..];
      if vs[0] <= m then vs[0] else m
  }

  function Max(vs: seq<real>): (m: real)
    requires vs != []
    ensures m in vs && forall v :: v in vs ==> v <= m
  {
    if |vs| == 1 then vs[0]
    else
      var m := Max(vs[1..]);
      assert vs == [vs[0]] + vs[1..];
      if vs[0] >= m then vs[0] else m
  }

  function RightEdges(items: seq<TextItem>): seq<real> {
    seq(|items|, i requires 0 <= i < |items| => items[i].x + OrZero(items[i].width))
  }

  function LowerEdges(items: seq<TextItem>): seq<real> {
    seq(|items|, i requires 0 <= i < |items| => items[i].y + OrZero(items[i].height))
  }

  function ComputeBoundingBox(items: seq<TextItem>): Box
    requires items != []
  {
    Box(Min(Xs(items)), Max(RightEdges(items)), Min(Ys(items)), Max(LowerEdges(items)))
  }

  function Texts(items: seq<TextItem>): seq<string> {
    seq(|items|, i requires 0 <= i < |items| => items[i].text)
  }

  function Block(cluster: seq<TextItem>, pageNumber: nat): TextBlock
    requires cluster != []
  {
    TextBlock(Join(Texts(cluster), " "), DetectBlockType(cluster), pageNumber, cluster, ComputeBoundingBox(cluster))
  }

  /** The blocks of the first `n` clusters, in order; an empty cluster would be skipped. */
  function ClusterBlocks(clusters: seq<seq<TextItem>>, n: nat, pageNumber: nat): seq<TextBlock>
    requires n <= |clusters|
  {
    if n == 0 then []
    else ClusterBlocks(clusters, n - 1, pageNumber)
         + (if clusters[n - 1] == [] then [] else [Block(clusters[n - 1], pageNumber)])
  }

  function BandBlocks(bands: seq<seq<TextItem>>, n: nat, pageNumber: nat): seq<TextBlock>
    requires n <= |bands|
  {
    if n == 0 then []
    else
      var clusters := XClusters(bands[n - 1]);
      BandBlocks(bands, n - 1, pageNumber) + ClusterBlocks(clusters, |clusters|, pageNumber)
  }

  function Layout(items: seq<TextItem>, pageNumber: nat): seq<TextBlock> {
    var bands := YBands(SortBy(items, BY_Y));
    BandBlocks(bands, |bands|, pageNumber)
  }

  lemma EmptyPage(pageNumber: nat)
    ensures Layout([], pageNumber) == []
  {
    assert SortBy([], BY_Y) == [];
  }

  method GroupSpatially(items: seq<TextItem>, pageNumber: nat) returns (blocks: seq<TextBlock>)
    ensures blocks == Layout(items, pageNumber)
  {
    hide Block, SortBy, YBands, XClusters;
    if |items| == 0 {
      EmptyPage(pageNumber);
      return [];
    }
    var sortedByY := SortBy(items, BY_Y);
    var yBands := GroupIntoYBands(sortedByY);
    blocks := [];
    for i := 0 to |yBands|
      invariant blocks == BandBlocks(yBands, i, pageNumber)
    {
      var xClusters := GroupByXGaps(yBands[i]);
      for j := 0 to |xClusters|
        invariant blocks == BandBlocks(yBands, i, pageNumber) + ClusterBlocks(xClusters, j, pageNumber)
      {
        var cluster := xClusters[j];
        if |cluster| == 0 { continue; }
        blocks := blocks + [Block(cluster, pageNumber)];
      }
    }
  }

  // ----- every item is in exactly one block -----

  function Contents(blocks: seq<TextBlock>): seq<TextItem> {
    if blocks == [] then [] else Contents(blocks[..|blocks| - 1]) + blocks[|blocks| - 1].items
  }

  lemma {:induction false} ContentsAppend(a: seq<TextBlock>, b: seq<TextBlock>)
    ensures Contents(a + b) == Contents(a) + Contents(b)
  {
    if b == [] {
      assert a + b == a;
    } else {
      var front, last := b[..|b| - 1], b[|b| - 1].items;
      assert (a + b)[..|a + b| - 1] == a + front && (a + b)[|a + b| - 1] == b[|b| - 1];
      ContentsAppend(a, front);
      assert (Contents(a) + Contents(front)) + last == Contents(a) + (Contents(front) + last);
    }
  }

  lemma BlockContents(blocks: seq<TextBlock>, cluster: seq<TextItem>, pageNumber: nat)
    requires cluster != []
    ensures Contents(blocks + [Block(cluster, pageNumber)]) == Contents(blocks) + cluster
  {
    var block := Block(cluster, pageNumber);
    assert block.items == cluster;
    assert (blocks + [block])[..|blocks|] == blocks;
  }

  lemma {:induction false} ClusterContents(clusters: seq<seq<TextItem>>, n: nat, pageNumber: nat)
    requires n <= |clusters|
    ensures Contents(ClusterBlocks(clusters, n, pageNumber)) == Flatten(clusters[..n])
  {
    hide Block;
    if n > 0 {
      var last := clusters[n - 1];
      ClusterContents(clusters, n - 1, pageNumber);
      FlattenPush(clusters[..n - 1], last);
      assert clusters[..n] == clusters[..n - 1] + [last];
      if last != [] {
        BlockContents(ClusterBlocks(clusters, n - 1, pageNumber), last, pageNumber);
      } else {
        assert ClusterBlocks(clusters, n, pageNumber) == ClusterBlocks(clusters, n - 1, pageNumber);
        assert Flatten(clusters[..n - 1]) + last == Flatten(clusters[..n - 1]);
      }
    }
  }

  lemma OneBandContents(band: seq<TextItem>, pageNumber: nat)
    ensures var clusters := XClusters(band);
      multiset(Contents(ClusterBlocks(clusters, |clusters|, pageNumber))) == multiset(band)
  {
    hide SortBy, XClusters;
    var clusters := XClusters(band);
    ClusterContents(clusters, |clusters|, pageNumber);
    assert clusters[..|clusters|] == clusters;
    XClustersSplitAtGaps(band);
    SortSorts(band, BY_X);
  }

  lemma BandStep(bands: seq<seq<TextItem>>, n: nat, pageNumber: nat)
    requires 0 < n <= |bands|
    ensures var clusters := XClusters(bands[n - 1]);
      BandBlocks(bands, n, pageNumber)
      == BandBlocks(bands, n - 1, pageNumber) + ClusterBlocks(clusters, |clusters|, pageNumber)
    ensures bands[..n] == bands[..n - 1] + [bands[n - 1]]
  {
    hide XClusters, ClusterBlocks;
  }

  lemma NoBands(bands: seq<seq<TextItem>>, pageNumber: nat)
    ensures Contents(BandBlocks(bands, 0, pageNumber)) == [] && bands[..0] == [] && Flatten(bands[..0]) == []
  {
  }

  lemma {:induction false} BandContents(bands: seq<seq<TextItem>>, n: nat, pageNumber: nat)
    requires n <= |bands|
    ensures multiset(Contents(BandBlocks(bands, n, pageNumber))) == multiset(Flatten(bands[..n]))
  {
    hide XClusters, ClusterBlocks, BandBlocks, Contents, Flatten;
    if n > 0 {
      var band := bands[n - 1];
      BandContents(bands, n - 1, pageNumber);
      BandStep(bands, n, pageNumber);
      FlattenPush(bands[..n - 1], band);
      OneBandContents(band, pageNumber);
      var clusters := XClusters(band);
      ContentsAppend(BandBlocks(bands, n - 1, pageNumber), ClusterBlocks(clusters, |clusters|, pageNumber));
    } else {
      NoBands(bands, pageNumber);
    }
  }

  /** Over all blocks of a page every input item occurs exactly once. */
  lemma EveryItemInOneBlock(items: seq<TextItem>, pageNumber: nat)
    ensures multiset(Contents(Layout(items, pageNumber))) == multiset(items)
  {
    var bands := YBands(SortBy(items, BY_Y));
    BandContents(bands, |bands|, pageNumber);
    assert bands[..|bands|] == bands;
    YBandsAreGreedy(SortBy(items, BY_Y));
    SortSorts(items, BY_Y);
  }

  // ----- what a block looks like -----

  lemma {:induction false} BlockOfCluster(clusters: seq<seq<TextItem>>, n: nat, pageNumber: nat, b: TextBlock)
    requires n <= |clusters| && b in ClusterBlocks(clusters, n, pageNumber)
    ensures exists j :: 0 <= j < n && clusters[j] != [] && b == Block(clusters[j], pageNumber)
  {
    hide Block;
    if b in ClusterBlocks(clusters, n - 1, pageNumber) {
      BlockOfCluster(clusters, n - 1, pageNumber, b);
    } else {
      assert clusters[n - 1] != [];
    }
  }

  lemma {:induction false} BlockOfBand(bands: seq<seq<TextItem>>, n: nat, pageNumber: nat, b: TextBlock)
    requires n <= |bands| && b in BandBlocks(bands, n, pageNumber)
    ensures exists i, j :: 0 <= i < n && 0 <= j < |XClusters(bands[i])|
                           && XClusters(bands[i])[j] != [] && b == Block(XClusters(bands[i])[j], pageNumber)
  {
    hide Block, XClusters;
    if b in BandBlocks(bands, n - 1, pageNumber) {
      BlockOfBand(bands, n - 1, pageNumber, b);
    } else {
      var clusters := XClusters(bands[n - 1]);
      BlockOfCluster(clusters, |clusters|, pageNumber, b);
    }
  }

  lemma ClusterHasShortGaps(band: seq<TextItem>, j: nat)
    requires j < |XClusters(band)|
    ensures Gaps(Xs(XClusters(band)[j]))
  {
    hide SortBy, XClusters;
    var c := XClusters(band)[j];
    XClustersSplitAtGaps(band);
    SortSorts(band, BY_X);
    PiecesSorted(XClusters(band), BY_X, j, j);
    assert ShortSteps(c) && Sorted(c, BY_X);
    hide Clustering;
    forall k | 0 < k < |Xs(c)| ensures Step(Xs(c), k) {
      assert BY_X(c[k - 1]) <= BY_X(c[k]);
      assert c[k].x - c[k - 1].x <= X_GAP_THRESHOLD;
    }
  }

  lemma ClusterInsideBand(band: seq<TextItem>, j: nat, item: TextItem)
    requires j < |XClusters(band)| && item in XClusters(band)[j]
    ensures item in band
  {
    hide SortBy, XClusters;
    XClustersSplitAtGaps(band);
    FlattenMember(XClusters(band), item);
    SortSorts(band, BY_X);
    SameMembers(SortBy(band, BY_X), band);
  }

  lemma ClusterIsFlat(band: seq<TextItem>, lo: real, j: nat)
    requires forall item :: item in band ==> lo <= item.y <= lo + 12.0
    requires j < |XClusters(band)|
    ensures ComputeVariance(Ys(XClusters(band)[j])) <= 36.0
  {
    hide SortBy, XClusters, ComputeVariance;
    var c := XClusters(band)[j];
    forall k | 0 <= k < |Ys(c)| ensures -6.0 <= Ys(c)[k] - (lo + 6.0) <= 6.0 {
      ClusterInsideBand(band, j, c[k]);
    }
    SpreadBoundsVariance(Ys(c), lo + 6.0, 6.0);
  }

  lemma BandIsFlat(items: seq<TextItem>, i: nat)
    requires i < |YBands(SortBy(items, BY_Y))|
    ensures var band := YBands(SortBy(items, BY_Y))[i];
      band != [] && forall item :: item in band ==> band[0].y <= item.y <= band[0].y + 12.0
  {
    hide SortBy, YBands;
    SortSorts(items, BY_Y);
    YBandsAreGreedy(SortBy(items, BY_Y));
    BandSpread(YBands(SortBy(items, BY_Y)), SortBy(items, BY_Y), i);
  }

  lemma NineIsTooFew(n: nat)
    requires n <= 9
    ensures 625.0 * (n as real * n as real - 1.0) <= 50000.0
  {
    assert n * n <= 81 by {
      assert (9 - n) * (9 + n) >= 0;
    }
    assert n as real * n as real == (n * n) as real;
  }

  lemma FlatBlockType(c: seq<TextItem>)
    requires c != [] && Gaps(Xs(c)) && ComputeVariance(Ys(c)) <= 36.0
    ensures DetectBlockType(c) != Header
    ensures DetectBlockType(c) == Table <==> |c| >= 3 && ComputeVariance(Xs(c)) > 5000.0
    ensures DetectBlockType(c) == Table ==> |c| >= 10
  {
    hide ComputeVariance, Sum;
    GapsBoundVariance(Xs(c));
    if |c| <= 9 {
      NineIsTooFew(|c|);
    }
  }

  /** On every page: the test on the y variance never fails and no block is a header, so a block
      is a table exactly when it has three items and an x variance over 5000; and because the
      gaps inside a cluster are short, that takes at least ten items. */
  lemma BlockTypes(items: seq<TextItem>, pageNumber: nat, b: TextBlock)
    requires b in Layout(items, pageNumber)
    ensures ComputeVariance(Ys(b.items)) <= 36.0
    ensures b.blockType != Header
    ensures b.blockType == Table <==> |b.items| >= 3 && ComputeVariance(Xs(b.items)) > 5000.0
    ensures b.blockType == Table ==> |b.items| >= 10
  {
    hide SortBy, YBands, XClusters, DetectBlockType, ComputeBoundingBox, Join, ComputeVariance;
    var bands := YBands(SortBy(items, BY_Y));
    BlockOfBand(bands, |bands|, pageNumber, b);
    var i, j :| 0 <= i < |bands| && 0 <= j < |XClusters(bands[i])|
                && XClusters(bands[i])[j] != [] && b == Block(XClusters(bands[i])[j], pageNumber);
    BandIsFlat(items, i);
    ClusterHasShortGaps(bands[i], j);
    ClusterIsFlat(bands[i], bands[i][0].y, j);
    FlatBlockType(b.items);
  }

  lemma BoxSidesTouch(c: seq<TextItem>)
    requires c != []
    ensures var box := ComputeBoundingBox(c);
      && (exists it :: it in c && it.x == box.xMin)
      && (exists it :: it in c && it.y == box.yMin)
      && (exists it :: it in c && it.x + OrZero(it.width) == box.xMax)
      && (exists it :: it in c && it.y + OrZero(it.height) == box.yMax)
  {
    hide Min, Max;
    var box := ComputeBoundingBox(c);
    var k0 :| 0 <= k0 < |c| && Xs(c)[k0] == box.xMin;
    var k1 :| 0 <= k1 < |c| && Ys(c)[k1] == box.yMin;
    var k2 :| 0 <= k2 < |c| && RightEdges(c)[k2] == box.xMax;
    var k3 :| 0 <= k3 < |c| && LowerEdges(c)[k3] == box.yMax;
    assert c[k0] in c && c[k1] in c && c[k2] in c && c[k3] in c;
  }

  lemma ClusterBoxIsTight(c: seq<TextItem>)
    requires c != []
    ensures var box := ComputeBoundingBox(c);
      && (forall it :: it in c ==>
            && box.xMin <= it.x && it.x + OrZero(it.width) <= box.xMax
            && box.yMin <= it.y && it.y + OrZero(it.height) <= box.yMax)
      && (exists it :: it in c && it.x == box.xMin)
      && (exists it :: it in c && it.y == box.yMin)
      && (exists it :: it in c && it.x + OrZero(it.width) == box.xMax)
      && (exists it :: it in c && it.y + OrZero(it.height) == box.yMax)
  {
    hide Min, Max;
    var box := ComputeBoundingBox(c);
    forall it | it in c
      ensures box.xMin <= it.x && it.x + OrZero(it.width) <= box.xMax
      ensures box.yMin <= it.y && it.y + OrZero(it.height) <= box.yMax
    {
      var k :| 0 <= k < |c| && c[k] == it;
      assert Xs(c)[k] in Xs(c) && Ys(c)[k] in Ys(c);
      assert RightEdges(c)[k] in RightEdges(c) && LowerEdges(c)[k] in LowerEdges(c);
    }
    BoxSidesTouch(c);
  }

  /** The bounding box contains every item of its block, and each side touches one of them. */
  lemma BoxIsTight(items: seq<TextItem>, pageNumber: nat, b: TextBlock)
    requires b in Layout(items, pageNumber)
    ensures b.pageNumber == pageNumber && b.items != []
    ensures forall it :: it in b.items ==>
      && b.box.xMin <= it.x && it.x + OrZero(it.width) <= b.box.xMax
      && b.box.yMin <= it.y && it.y + OrZero(it.height) <= b.box.yMax
    ensures exists it :: it in b.items && it.x == b.box.xMin
    ensures exists it :: it in b.items && it.y == b.box.yMin
    ensures exists it :: it in b.items && it.x + OrZero(it.width) == b.box.xMax
    ensures exists it :: it in b.items && it.y + OrZero(it.height) == b.box.yMax
  {
    hide SortBy, YBands, XClusters, DetectBlockType, ComputeBoundingBox, Join;
    var bands := YBands(SortBy(items, BY_Y));
    BlockOfBand(bands, |bands|, pageNumber, b);
    ClusterBoxIsTight(b.items);
  }

  // ----- ten items can be a table -----

  /** Items on one line, 25 apart. */
  function Line(n: nat): seq<TextItem> {
    seq(n, i => TextItem("", 25.0 * i as real, 0.0, None, None, None))
  }

  lemma {:induction false} LineDistances(n: nat, skipped: nat)
    ensures Deviation(Xs(Line(n)), 25.0 * (n + skipped) as real) == 625.0 * (Squares(n + skipped) - Squares(skipped))
  {
    if n > 0 {
      var vs := Xs(Line(n));
      assert vs[..n - 1] == Xs(Line(n - 1));
      LineDistances(n - 1, skipped + 1);
      assert n - 1 + (skipped + 1) == n + skipped;
      var u, j := vs[n - 1] - 25.0 * (n + skipped) as real, (skipped + 1) as real;
      assert u == -25.0 * j;
      assert u * u == 625.0 * (j * j);
    }
  }

  lemma {:induction false} LinePairwise(n: nat)
    ensures 12.0 * Pairwise(Xs(Line(n))) == 625.0 * Quartic(n)
  {
    if n > 0 {
      var vs := Xs(Line(n));
      assert vs[..n - 1] == Xs(Line(n - 1));
      LinePairwise(n - 1);
      LineDistances(n - 1, 0);
      assert vs[n - 1] == 25.0 * (n - 1) as real;
    }
  }

  lemma {:induction false} SortedIsFixed(items: seq<TextItem>, key: TextItem -> real)
    requires Sorted(items, key)
    ensures SortBy(items, key) == items
  {
    if items != [] {
      SortedIsFixed(items[1..], key);
    }
  }

  lemma {:induction false} LineIsOneBand(n: nat, k: nat)
    requires 0 < k <= n
    ensures Bands(Line(n)[..k], Line(n)[k..]) == [Line(n)]
    ensures Clusters(Line(n)[..k], Line(n)[k..]) == [Line(n)]
    decreases n - k
  {
    if k < n {
      LineIsOneBand(n, k + 1);
      assert Line(n)[..k] + [Line(n)[k..][0]] == Line(n)[..k + 1];
      assert Line(n)[k..][1..] == Line(n)[k + 1..];
    } else {
      assert Line(n)[..k] == Line(n);
    }
  }

  lemma LineLayout(n: nat, pageNumber: nat)
    requires n > 0
    ensures Layout(Line(n), pageNumber) == [Block(Line(n), pageNumber)]
  {
    var line := Line(n);
    SortedIsFixed(line, BY_X);
    SortedIsFixed(line, BY_Y);
    LineIsOneBand(n, 1);
    assert line[..1] == [line[0]];
    assert YBands(line) == [line] && XClusters(line) == [line];
    hide Block, SortBy, YBands, XClusters;
    assert ClusterBlocks([line], 0, pageNumber) == [] && BandBlocks([line], 0, pageNumber) == [];
    assert ClusterBlocks([line], 1, pageNumber) == [Block(line, pageNumber)];
    assert BandBlocks([line], 1, pageNumber) == [Block(line, pageNumber)];
  }

  lemma TenVariance()
    ensures ComputeVariance(Xs(Line(10))) > 5000.0
  {
    hide Deviation, Pairwise, Sum, Quartic;
    var vs := Xs(Line(10));
    LinePairwise(10);
    QuarticClosed(10);
    MeanIsBalanced(vs);
    PairwiseIsDeviation(vs, Mean(vs));
    assert 12.0 * Pairwise(vs) == 625.0 * 9900.0;
    assert 10.0 * Deviation(vs, Mean(vs)) == Pairwise(vs);
  }

  /** Ten is the least number: ten items on one line, 25 apart, do form a table. */
  lemma TenCanBeATable(pageNumber: nat)
    ensures |Layout(Line(10), pageNumber)| == 1
    ensures Layout(Line(10), pageNumber)[0].blockType == Table
    ensures |Layout(Line(10), pageNumber)[0].items| == 10
  {
    hide Layout, ComputeVariance, Join, ComputeBoundingBox;
    LineLayout(10, pageNumber);
    TenVariance();
    SpreadBoundsVariance(Ys(Line(10)), 0.0, 6.0);
  }
}
