/** The masonry photo grid: the breakpoint table that picks a column count,
    the greedy shortest-column packing (a per-item loop that raises one entry
    of a column-height array in place), the grid height, where and when each
    tile's entrance animation starts, and the lightbox that shows one tile in
    colour. */
module Masonry {
  import opened Common

  datatype MasonryItem = MasonryItem(id: string, img: string, url: string, height: real)

  /** A placed tile: the item's own fields and its box. */
  datatype GridItem = GridItem(id: string, img: string, url: string, height: real,
                               x: real, y: real, w: real, h: real)

  // ---------------------------------------------------------------------------
  // Breakpoints

  /** The `min-width` of each media query, widest first, and the column count
      each one selects. */
  const MinWidths: seq<real> := [1500.0, 1000.0, 600.0, 400.0]
  const ColumnValues: seq<int> := [5, 4, 3, 2]
  const DefaultColumns: int := 1

  /** `queries.findIndex(q => matchMedia(q).matches)` from position `from`
      on: the first `min-width` the viewport reaches, or -1. */
  function FindIndexFrom(minWidths: seq<real>, viewport: real, from: nat): (r: int)
    requires from <= |minWidths|
    ensures r == -1 || from <= r < |minWidths|
    ensures r >= 0 ==> viewport >= minWidths[r]
    ensures r >= 0 ==> forall j :: from <= j < r ==> viewport < minWidths[j]
    ensures r == -1 ==> forall j :: from <= j < |minWidths| ==> viewport < minWidths[j]
    decreases |minWidths| - from
  {
    if from == |minWidths| then -1
    else if viewport >= minWidths[from] then from
    else FindIndexFrom(minWidths, viewport, from + 1)
  }

  /** The value the media hook yields: its default when there is no window
      (`viewport` is None), and otherwise `values[findIndex(...)]`, falling
      back to the default when no query matches or the index has no value.
      Either way the value is the default or one of the table's values. */
  function MediaValue(minWidths: seq<real>, values: seq<int>, default: int,
                      viewport: Option<real>): (v: int)
    ensures viewport.None? ==> v == default
    ensures v == default || v in values
  {
    if viewport.None? then default
    else
      var i := FindIndexFrom(minWidths, viewport.value, 0);
      if 0 <= i < |values| then values[i] else default
  }

  /** The column count of the grid for a given viewport width: between 1
      and 5. */
  function ColumnCount(viewport: Option<real>): (n: int)
    ensures 1 <= n <= 5
  {
    MediaValue(MinWidths, ColumnValues, DefaultColumns, viewport)
  }

  /** The breakpoint table, threshold by threshold, and the range it keeps to. */
  lemma ColumnCountTable(viewport: Option<real>)
    ensures viewport.None? ==> ColumnCount(viewport) == 1
    ensures viewport.Some? ==>
              ColumnCount(viewport) ==
                var w := viewport.value;
                if w >= 1500.0 then 5 else if w >= 1000.0 then 4
                else if w >= 600.0 then 3 else if w >= 400.0 then 2 else 1
    ensures 1 <= ColumnCount(viewport) <= 5
  {
    if viewport.Some? {
      var w := viewport.value;
      var i := FindIndexFrom(MinWidths, w, 0);
      if w >= 1500.0 { assert i == 0; }
      else if w >= 1000.0 { assert i == 1; }
      else if w >= 600.0 { assert i == 2; }
      else if w >= 400.0 { assert i == 3; }
      else { assert i == -1; }
    }
  }

  /** A wider viewport never gets fewer columns. */
  lemma ColumnCountMonotone(narrow: real, wide: real)
    requires narrow <= wide
    ensures ColumnCount(Some(narrow)) <= ColumnCount(Some(wide))
  {
    ColumnCountTable(Some(narrow));
    ColumnCountTable(Some(wide));
  }

  // ---------------------------------------------------------------------------
  // Greedy shortest-column packing, as a specification

  /** The grid built so far and the running height of every column. */
  datatype Packing = Packing(grid: seq<GridItem>, heights: seq<real>)

  /** The left edge of column `col`: `columnWidth * col`. */
  function ColumnLeft(columnWidth: real, col: nat): real {
    Times(col, columnWidth)
  }

  /** The box of an item placed on the first shortest column: its `y` is
      that column's height, it is one column wide and half its height hint
      tall. */
  function Tile(p: Packing, item: MasonryItem, columnWidth: real): GridItem
    requires |p.heights| > 0
  {
    var col := FirstMinIndex(p.heights);
    GridItem(item.id, item.img, item.url, item.height,
             ColumnLeft(columnWidth, col), p.heights[col], columnWidth, item.height / 2.0)
  }

  /** Places one item: its tile joins the end of the grid, the tiles
      already placed stay where they are, and only its column's height
      changes. */
  function Place(p: Packing, item: MasonryItem, columnWidth: real): (q: Packing)
    requires |p.heights| > 0
    ensures |q.heights| == |p.heights| && |q.grid| == |p.grid| + 1
    ensures q.grid[..|p.grid|] == p.grid
    ensures forall j :: 0 <= j < |p.heights| && j != FirstMinIndex(p.heights) ==> q.heights[j] == p.heights[j]
  {
    var col := FirstMinIndex(p.heights);
    Packing(p.grid + [Tile(p, item, columnWidth)], p.heights[col := p.heights[col] + item.height / 2.0])
  }

  /** All items placed in order, starting from `columns` empty columns. */
  function Pack(items: seq<MasonryItem>, columns: nat, columnWidth: real): (p: Packing)
    requires columns > 0
    ensures |p.heights| == columns && |p.grid| == |items|
    decreases |items|
  {
    if |items| == 0 then Packing([], seq(columns, _ => 0.0))
    else Place(Pack(items[..|items| - 1], columns, columnWidth), items[|items| - 1], columnWidth)
  }

  /** The grid of the component: empty while the container has no width,
      otherwise the packing over columns of equal width. */
  function Layout(items: seq<MasonryItem>, columns: nat, width: real): (grid: seq<GridItem>)
    requires columns > 0
    ensures |grid| == if width == 0.0 then 0 else |items|
  {
    if width == 0.0 then [] else Pack(items, columns, width / columns as real).grid
  }

  /** The grid for a viewport width and a container width: the column count
      always meets Layout's requirement. */
  function GridFor(items: seq<MasonryItem>, viewport: Option<real>, width: real): (grid: seq<GridItem>)
    ensures width != 0.0 ==> |grid| == |items|
    ensures width == 0.0 ==> grid == []
  {
    ColumnCountTable(viewport);
    Layout(items, ColumnCount(viewport) as nat, width)
  }

  /** The column item `i` goes to: the first shortest column once the items
      before it are placed. */
  function ColumnOf(items: seq<MasonryItem>, columns: nat, i: nat): nat
    requires columns > 0 && i < |items|
  {
    FirstMinIndex(Pack(items[..i], columns, 0.0).heights)
  }

  /** The column heights before item `i` is placed. */
  function HeightsBefore(items: seq<MasonryItem>, columns: nat, i: nat): seq<real>
    requires columns > 0 && i <= |items|
  {
    Pack(items[..i], columns, 0.0).heights
  }

  // ---------------------------------------------------------------------------
  // Properties of the packing

  /** Column heights do not depend on the column width. */
  lemma {:induction false} HeightsIgnoreWidth(items: seq<MasonryItem>, columns: nat, cw1: real, cw2: real)
    requires columns > 0
    ensures Pack(items, columns, cw1).heights == Pack(items, columns, cw2).heights
    decreases |items|
  {
    if |items| > 0 {
      HeightsIgnoreWidth(items[..|items| - 1], columns, cw1, cw2);
    }
  }

  /** Packing one more item is one more Place. */
  lemma PackStep(items: seq<MasonryItem>, columns: nat, cw: real, i: nat)
    requires columns > 0 && i < |items|
    ensures Pack(items[..i + 1], columns, cw) == Place(Pack(items[..i], columns, cw), items[i], cw)
  {
    var pre := items[..i + 1];
    assert pre[..|pre| - 1] == items[..i];
    assert pre[|pre| - 1] == items[i];
  }

  /** Packing a prefix of the items gives a prefix of the grid. */
  lemma {:induction false} PackPrefixStable(items: seq<MasonryItem>, columns: nat, cw: real, m: nat)
    requires columns > 0 && m <= |items|
    ensures Pack(items[..m], columns, cw).grid == Pack(items, columns, cw).grid[..m]
    decreases |items|
  {
    if m < |items| {
      var init := items[..|items| - 1];
      assert init[..m] == items[..m];
      PackPrefixStable(init, columns, cw, m);
      var p := Pack(init, columns, cw);
      assert (p.grid + [Tile(p, items[|items| - 1], cw)])[..m] == p.grid[..m];
    } else {
      assert items[..m] == items;
    }
  }

  /** The tile of item `i` is the one Place gave it, given the items before. */
  lemma PlacedTile(items: seq<MasonryItem>, columns: nat, cw: real, i: nat)
    requires columns > 0 && i < |items|
    ensures Pack(items, columns, cw).grid[i] == Tile(Pack(items[..i], columns, cw), items[i], cw)
  {
    PackStep(items, columns, cw, i);
    PackPrefixStable(items, columns, cw, i + 1);
    assert |Pack(items[..i], columns, cw).grid| == i;
  }

  /** Item `i` goes to a valid column, the first of minimal height, and only
      that column grows, by half the item's height hint. */
  lemma HeightsStep(items: seq<MasonryItem>, columns: nat, i: nat)
    requires columns > 0 && i < |items|
    ensures var col := ColumnOf(items, columns, i);
            var before := HeightsBefore(items, columns, i);
            col < columns &&
            (forall c :: 0 <= c < columns ==> before[col] <= before[c]) &&
            (forall c :: 0 <= c < col ==> before[col] < before[c]) &&
            HeightsBefore(items, columns, i + 1) == before[col := before[col] + items[i].height / 2.0]
  {
    PackStep(items, columns, 0.0, i);
    FirstMinIndexIsMin(HeightsBefore(items, columns, i));
  }

  /** Item `i` keeps its fields and sits at `x = col * columnWidth`, `y` =
      its column's height before it, in a box one column wide and half its
      hint tall. */
  lemma Placement(items: seq<MasonryItem>, columns: nat, cw: real, i: nat)
    requires columns > 0 && i < |items|
    ensures var g := Pack(items, columns, cw).grid[i];
            var col := ColumnOf(items, columns, i);
            g.id == items[i].id && g.img == items[i].img && g.url == items[i].url &&
            g.height == items[i].height && g.w == cw && g.h == items[i].height / 2.0 &&
            g.x == ColumnLeft(cw, col) && g.y == HeightsBefore(items, columns, i)[col]
  {
    PlacedTile(items, columns, cw, i);
    HeightsIgnoreWidth(items[..i], columns, cw, 0.0);
  }

  /** With a positive container width the grid lists the items in order,
      one box per item, each one column wide and half its hint tall, placed
      on the first shortest column at that column's running height. */
  lemma LayoutShape(items: seq<MasonryItem>, columns: nat, width: real, i: nat)
    requires columns > 0 && width != 0.0 && i < |items|
    ensures |Layout(items, columns, width)| == |items|
    ensures var g := Layout(items, columns, width)[i];
            var col := ColumnOf(items, columns, i);
            g.id == items[i].id && g.img == items[i].img && g.url == items[i].url &&
            g.height == items[i].height &&
            g.w == width / columns as real && g.h == items[i].height / 2.0 &&
            col < columns && g.x == ColumnLeft(width / columns as real, col) &&
            g.y == HeightsBefore(items, columns, i)[col]
  {
    Placement(items, columns, width / columns as real, i);
    HeightsStep(items, columns, i);
  }

  /** Sum of the box heights of the items among the first `n` that went to
      column `c`. */
  function ColumnTotal(items: seq<MasonryItem>, columns: nat, c: nat, n: nat): real
    requires columns > 0 && n <= |items|
    decreases n
  {
    if n == 0 then 0.0
    else ColumnTotal(items, columns, c, n - 1) +
         (if ColumnOf(items, columns, n - 1) == c then items[n - 1].height / 2.0 else 0.0)
  }

  /** Conservation: each column's running height is the sum of the box
      heights placed on it. */
  lemma {:induction false} HeightIsColumnTotal(items: seq<MasonryItem>, columns: nat, c: nat, n: nat)
    requires columns > 0 && c < columns && n <= |items|
    ensures HeightsBefore(items, columns, n)[c] == ColumnTotal(items, columns, c, n)
    decreases n
  {
    if n > 0 {
      HeightIsColumnTotal(items, columns, c, n - 1);
      HeightsStep(items, columns, n - 1);
    }
  }

  /** Heights never go down when box heights are non-negative. */
  lemma {:induction false} HeightsGrow(items: seq<MasonryItem>, columns: nat, m: nat, n: nat)
    requires columns > 0 && m <= n <= |items|
    requires forall k :: 0 <= k < |items| ==> items[k].height >= 0.0
    ensures forall c :: 0 <= c < columns ==>
      HeightsBefore(items, columns, m)[c] <= HeightsBefore(items, columns, n)[c]
    decreases n - m
  {
    if m < n {
      HeightsGrow(items, columns, m, n - 1);
      HeightsStep(items, columns, n - 1);
    }
  }

  /** A column's height stays put while items go elsewhere. */
  lemma {:induction false} HeightUntouched(items: seq<MasonryItem>, columns: nat, c: nat, m: nat, n: nat)
    requires columns > 0 && c < columns && m <= n <= |items|
    requires forall k :: m <= k < n ==> ColumnOf(items, columns, k) != c
    ensures HeightsBefore(items, columns, n)[c] == HeightsBefore(items, columns, m)[c]
    decreases n - m
  {
    if m < n {
      HeightUntouched(items, columns, c, m, n - 1);
      HeightsStep(items, columns, n - 1);
    }
  }

  /** Consecutive tiles of a column abut: the next one starts where the
      previous one ends, so tiles of one column never overlap. */
  lemma Abut(items: seq<MasonryItem>, columns: nat, cw: real, i: nat, j: nat)
    requires columns > 0 && i < j < |items|
    requires ColumnOf(items, columns, i) == ColumnOf(items, columns, j)
    requires forall k :: i < k < j ==> ColumnOf(items, columns, k) != ColumnOf(items, columns, i)
    ensures var grid := Pack(items, columns, cw).grid;
            grid[j].y == grid[i].y + grid[i].h
  {
    var c := ColumnOf(items, columns, i);
    Placement(items, columns, cw, i);
    Placement(items, columns, cw, j);
    HeightsStep(items, columns, i);
    HeightUntouched(items, columns, c, i + 1, j);
  }

  // ---------------------------------------------------------------------------
  // Grid height

  /** The bottom edge of every tile. */
  function Bottoms(grid: seq<GridItem>): (b: seq<real>)
    ensures |b| == |grid|
  {
    seq(|grid|, i requires 0 <= i < |grid| => grid[i].y + grid[i].h)
  }

  lemma BottomsAppend(grid: seq<GridItem>, g: GridItem)
    ensures Bottoms(grid + [g]) == Bottoms(grid) + [g.y + g.h]
  {
    var l := Bottoms(grid + [g]);
    var r := Bottoms(grid) + [g.y + g.h];
    assert |l| == |r|;
    forall i | 0 <= i < |l| ensures l[i] == r[i] {
      if i < |grid| {
        assert (grid + [g])[i] == grid[i];
      }
    }
  }

  /** The height of the grid container: 0 for an empty grid, otherwise the
      lowest tile bottom (MaxHeightIsLowestBottom). */
  function MaxHeight(grid: seq<GridItem>): real {
    if |grid| == 0 then 0.0 else SeqMax(Bottoms(grid))
  }

  /** No tile reaches below the container, and a non-empty grid has a tile
      whose bottom is the container's bottom. */
  lemma MaxHeightIsLowestBottom(grid: seq<GridItem>)
    ensures |grid| == 0 ==> MaxHeight(grid) == 0.0
    ensures forall i :: 0 <= i < |grid| ==> grid[i].y + grid[i].h <= MaxHeight(grid)
    ensures |grid| > 0 ==> exists i :: 0 <= i < |grid| && grid[i].y + grid[i].h == MaxHeight(grid)
  {
    if |grid| > 0 {
      var b := Bottoms(grid);
      SeqMaxIsMax(b);
      assert forall i :: 0 <= i < |grid| ==> b[i] == grid[i].y + grid[i].h;
    }
  }

  /** An empty container (no width, so no grid) has height 0, as has a grid
      of no items. */
  lemma MaxHeightEmpty(items: seq<MasonryItem>, columns: nat, width: real)
    requires columns > 0 && (width == 0.0 || |items| == 0)
    ensures MaxHeight(Layout(items, columns, width)) == 0.0
  {
  }

  /** The grid bottom of the first tile placed on empty columns. */
  lemma PlaceFirst(p: Packing, item: MasonryItem, cw: real)
    requires |p.heights| > 0 && |p.grid| == 0 && item.height >= 0.0
    requires forall c :: 0 <= c < |p.heights| ==> p.heights[c] == 0.0
    ensures MaxHeight(Place(p, item, cw).grid) == SeqMax(Place(p, item, cw).heights)
  {
    var col := FirstMinIndex(p.heights);
    var h := item.height / 2.0;
    var q := Place(p, item, cw);
    var t := Tile(p, item, cw);
    assert q.grid == [t];
    assert t.y + t.h == h;
    assert MaxHeight(q.grid) == h;
    SeqMaxUnique(p.heights, 0.0, 0);
    SeqMaxRaise(p.heights, col, h);
  }

  /** One more tile lowers the grid bottom to its own bottom at most. */
  lemma MaxHeightAppend(grid: seq<GridItem>, t: GridItem)
    requires |grid| > 0
    ensures MaxHeight(grid + [t]) == Max(MaxHeight(grid), t.y + t.h)
  {
    BottomsAppend(grid, t);
    SeqMaxAppend(Bottoms(grid), t.y + t.h);
  }

  /** Placing a tile keeps the grid bottom equal to the tallest column. */
  lemma PlaceNext(p: Packing, item: MasonryItem, cw: real)
    requires |p.heights| > 0 && |p.grid| > 0 && item.height >= 0.0
    requires MaxHeight(p.grid) == SeqMax(p.heights)
    ensures MaxHeight(Place(p, item, cw).grid) == SeqMax(Place(p, item, cw).heights)
  {
    var col := FirstMinIndex(p.heights);
    var h := item.height / 2.0;
    var t := Tile(p, item, cw);
    SeqMaxRaise(p.heights, col, h);
    MaxHeightAppend(p.grid, t);
  }

  /** While box heights are non-negative, the lowest tile bottom of the
      packing so far is the tallest column. */
  lemma {:induction false} MaxHeightOfPack(items: seq<MasonryItem>, columns: nat, cw: real)
    requires columns > 0 && |items| > 0
    requires forall k :: 0 <= k < |items| ==> items[k].height >= 0.0
    ensures MaxHeight(Pack(items, columns, cw).grid) == SeqMax(Pack(items, columns, cw).heights)
    decreases |items|
  {
    var init := items[..|items| - 1];
    var p := Pack(init, columns, cw);
    assert Pack(items, columns, cw) == Place(p, items[|items| - 1], cw);
    if |init| == 0 {
      PlaceFirst(p, items[|items| - 1], cw);
    } else {
      MaxHeightOfPack(init, columns, cw);
      PlaceNext(p, items[|items| - 1], cw);
    }
  }

  /** The container height equals the tallest final column. */
  lemma MaxHeightIsTallestColumn(items: seq<MasonryItem>, columns: nat, width: real)
    requires columns > 0 && width != 0.0 && |items| > 0
    requires forall k :: 0 <= k < |items| ==> items[k].height >= 0.0
    ensures MaxHeight(Layout(items, columns, width)) == SeqMax(HeightsBefore(items, columns, |items|))
  {
    MaxHeightOfPack(items, columns, width / columns as real);
    assert items[..|items|] == items;
    HeightsIgnoreWidth(items, columns, width / columns as real, 0.0);
  }

  // ---------------------------------------------------------------------------
  // The grid builder with its in-place column-height array

  /** `colHeights.indexOf(Math.min(...colHeights))`. */
  method ShortestColumn(colHeights: array<real>) returns (col: nat)
    requires colHeights.Length > 0
    ensures col == FirstMinIndex(colHeights[..])
  {
    col := 0;
    var j := 1;
    assert colHeights[..1] == [colHeights[0]];
    while j < colHeights.Length
      invariant 1 <= j <= colHeights.Length
      invariant col == FirstMinIndex(colHeights[..j])
    {
      assert colHeights[..j + 1][..j] == colHeights[..j];
      if colHeights[j] < colHeights[col] {
        col := j;
      }
      j := j + 1;
    }
    assert colHeights[..colHeights.Length] == colHeights[..];
  }

  /** One more item packed onto a known packing, spelled out for its
      first shortest column. */
  lemma PackExtend(items: seq<MasonryItem>, columns: nat, cw: real, i: nat,
                   grid: seq<GridItem>, heights: seq<real>, col: nat, tile: GridItem,
                   raised: seq<real>)
    requires columns > 0 && i < |items|
    requires Pack(items[..i], columns, cw).grid == grid
    requires Pack(items[..i], columns, cw).heights == heights
    requires |heights| > 0 && col == FirstMinIndex(heights)
    requires tile == GridItem(items[i].id, items[i].img, items[i].url, items[i].height,
                              ColumnLeft(cw, col), heights[col], cw, items[i].height / 2.0)
    requires raised == heights[col := heights[col] + items[i].height / 2.0]
    ensures Pack(items[..i + 1], columns, cw).grid == grid + [tile]
    ensures Pack(items[..i + 1], columns, cw).heights == raised
  {
    var p := Pack(items[..i], columns, cw);
    PackStep(items, columns, cw, i);
    assert Tile(p, items[i], cw) == tile;
    assert Place(p, items[i], cw).grid == p.grid + [tile];
  }

  /** The grid memo: one pass over the items, each placed on the shortest
      column of a height array that it then raises in place. */
  method BuildGrid(items: seq<MasonryItem>, columns: nat, width: real) returns (grid: seq<GridItem>)
    requires columns > 0
    ensures grid == Layout(items, columns, width)
  {
    if width == 0.0 {
      return [];
    }
    var colHeights := new real[columns](_ => 0.0);
    var columnWidth := width / columns as real;
    grid := [];
    var i := 0;
    while i < |items|
      invariant 0 <= i <= |items|
      invariant Pack(items[..i], columns, columnWidth).grid == grid
      invariant Pack(items[..i], columns, columnWidth).heights == colHeights[..]
    {
      ghost var before := colHeights[..];
      var col := ShortestColumn(colHeights);
      var x := ColumnLeft(columnWidth, col);
      var height := items[i].height / 2.0;
      var y := colHeights[col];
      var tile := GridItem(items[i].id, items[i].img, items[i].url, items[i].height,
                           x, y, columnWidth, height);
      colHeights[col] := colHeights[col] + height;
      PackExtend(items, columns, columnWidth, i, grid, before, col, tile, colHeights[..]);
      grid := grid + [tile];
      i := i + 1;
    }
    assert items[..|items|] == items;
  }

  // ---------------------------------------------------------------------------
  // The six-item trace

  /** One packing step on three columns whose heights are known: the first
      column of minimal height takes the item and grows by its box. */
  lemma TraceStep(items: seq<MasonryItem>, k: nat, h0: real, h1: real, h2: real, col: nat)
    requires k < |items| && HeightsBefore(items, 3, k) == [h0, h1, h2]
    requires col == 0 ==> h0 <= h1 && h0 <= h2
    requires col == 1 ==> h1 < h0 && h1 <= h2
    requires col == 2 ==> h2 < h0 && h2 < h1
    requires col < 3
    ensures ColumnOf(items, 3, k) == col
    ensures var d := items[k].height / 2.0;
            HeightsBefore(items, 3, k + 1) ==
              [if col == 0 then h0 + d else h0, if col == 1 then h1 + d else h1, if col == 2 then h2 + d else h2]
  {
    var h := [h0, h1, h2];
    FirstMinIndexUnique(h, col);
    HeightsStep(items, 3, k);
    var d := items[k].height / 2.0;
    assert h[col := h[col] + d] ==
      [if col == 0 then h0 + d else h0, if col == 1 then h1 + d else h1, if col == 2 then h2 + d else h2];
  }

  /** Columns and running heights of the six-item example. */
  lemma SixItemHeights(items: seq<MasonryItem>)
    requires |items| == 6
    requires items[0].height == 400.0 && items[1].height == 250.0 && items[2].height == 600.0
    requires items[3].height == 400.0 && items[4].height == 300.0 && items[5].height == 500.0
    ensures [ColumnOf(items, 3, 0), ColumnOf(items, 3, 1), ColumnOf(items, 3, 2),
             ColumnOf(items, 3, 3), ColumnOf(items, 3, 4), ColumnOf(items, 3, 5)] == [0, 1, 2, 1, 0, 2]
    ensures HeightsBefore(items, 3, 0) == [0.0, 0.0, 0.0]
    ensures HeightsBefore(items, 3, 1) == [200.0, 0.0, 0.0]
    ensures HeightsBefore(items, 3, 2) == [200.0, 125.0, 0.0]
    ensures HeightsBefore(items, 3, 3) == [200.0, 125.0, 300.0]
    ensures HeightsBefore(items, 3, 4) == [200.0, 325.0, 300.0]
    ensures HeightsBefore(items, 3, 5) == [350.0, 325.0, 300.0]
    ensures HeightsBefore(items, 3, 6) == [350.0, 325.0, 550.0]
  {
    assert items[..0] == [];
    assert HeightsBefore(items, 3, 0) == [0.0, 0.0, 0.0];
    TraceStep(items, 0, 0.0, 0.0, 0.0, 0);
    TraceStep(items, 1, 200.0, 0.0, 0.0, 1);
    TraceStep(items, 2, 200.0, 125.0, 0.0, 2);
    TraceStep(items, 3, 200.0, 125.0, 300.0, 1);
    TraceStep(items, 4, 200.0, 325.0, 300.0, 0);
    TraceStep(items, 5, 350.0, 325.0, 300.0, 2);
  }

  /** Heights 400, 250, 600, 400, 300, 500 on three columns land on columns
      0, 1, 2, 1, 0, 2 (SixItemHeights) at heights 0, 0, 0, 125, 200, 300. */
  lemma SixItemTrace(items: seq<MasonryItem>, width: real)
    requires |items| == 6
    requires items[0].height == 400.0 && items[1].height == 250.0 && items[2].height == 600.0
    requires items[3].height == 400.0 && items[4].height == 300.0 && items[5].height == 500.0
    requires width > 0.0
    ensures var grid := Layout(items, 3, width);
            |grid| == 6 &&
            [grid[0].y, grid[1].y, grid[2].y, grid[3].y, grid[4].y, grid[5].y] ==
              [0.0, 0.0, 0.0, 125.0, 200.0, 300.0]
  {
    SixItemHeights(items);
    LayoutY(items, 3, width, 0);
    LayoutY(items, 3, width, 1);
    LayoutY(items, 3, width, 2);
    LayoutY(items, 3, width, 3);
    LayoutY(items, 3, width, 4);
    LayoutY(items, 3, width, 5);
  }

  /** Item `i`'s `y` is its column's height before it. */
  lemma LayoutY(items: seq<MasonryItem>, columns: nat, width: real, i: nat)
    requires columns > 0 && width != 0.0 && i < |items|
    ensures |Layout(items, columns, width)| == |items|
    ensures Layout(items, columns, width)[i].y == HeightsBefore(items, columns, i)[ColumnOf(items, columns, i)]
  {
    LayoutShape(items, columns, width, i);
  }

  /** The six-item grid's container is as tall as its tallest column, 550. */
  lemma SixItemContainer(items: seq<MasonryItem>, width: real)
    requires |items| == 6
    requires items[0].height == 400.0 && items[1].height == 250.0 && items[2].height == 600.0
    requires items[3].height == 400.0 && items[4].height == 300.0 && items[5].height == 500.0
    requires width > 0.0
    ensures MaxHeight(Layout(items, 3, width)) == 550.0
  {
    SixItemHeights(items);
    MaxHeightIsTallestColumn(items, 3, width);
    SeqMaxUnique([350.0, 325.0, 550.0], 550.0, 2);
  }

  // ---------------------------------------------------------------------------
  // Entrance animation

  datatype Direction = Top | Bottom | Left | Right | Center | Random
                     /** any other string reaches the switch's default branch */
                     | Unlisted

  datatype Point = Point(x: real, y: real)
  datatype Size = Size(width: real, height: real)

  /** The direction actually used: `Random` draws one of the four edges
      (`pick` is `Math.floor(Math.random() * 4)`). */
  function Resolve(animateFrom: Direction, pick: nat): (d: Direction)
    requires pick < 4
    ensures animateFrom != Random ==> d == animateFrom
    ensures animateFrom == Random ==> d in {Top, Bottom, Left, Right}
  {
    if animateFrom == Random then [Top, Bottom, Left, Right][pick] else animateFrom
  }

  /** Where a tile's entrance starts; `container` is the container's
      bounding rectangle, None before the container is mounted. */
  function InitialPosition(item: GridItem, animateFrom: Direction, pick: nat,
                           container: Option<Size>, innerWidth: real): (p: Point)
    requires pick < 4
    ensures container.None? ==> p == Point(item.x, item.y)
    ensures container.Some? && Resolve(animateFrom, pick) in {Top, Bottom} ==> p.x == item.x
    ensures container.Some? && Resolve(animateFrom, pick) in {Left, Right} ==> p.y == item.y
    ensures container.Some? && Resolve(animateFrom, pick) == Center ==>
              p.x + item.w / 2.0 == container.value.width / 2.0 &&
              p.y + item.h / 2.0 == container.value.height / 2.0
  {
    if container.None? then Point(item.x, item.y)
    else
      match Resolve(animateFrom, pick)
      case Top => Point(item.x, -200.0)
      case Bottom => Point(item.x, 100.0)
      case Left => Point(-200.0, item.y)
      case Right => Point(innerWidth + 200.0, item.y)
      case Center => Point(container.value.width / 2.0 - item.w / 2.0,
                           container.value.height / 2.0 - item.h / 2.0)
      case _ => Point(item.x, item.y + 100.0)
  }

  /** Vertical entrances keep the tile's column, horizontal ones its row;
      both come from fixed offsets off the edges; a centred entrance puts
      the tile's centre on the container's centre; before mounting the tile
      starts where it ends. */
  lemma EntranceGeometry(item: GridItem, animateFrom: Direction, pick: nat,
                         container: Option<Size>, innerWidth: real)
    requires pick < 4
    ensures var p := InitialPosition(item, animateFrom, pick, container, innerWidth);
            var d := Resolve(animateFrom, pick);
            (container.None? ==> p == Point(item.x, item.y)) &&
            (container.Some? ==>
              (d in {Top, Bottom} ==> p.x == item.x) &&
              (d == Top ==> p.y == -200.0) &&
              (d == Bottom ==> p.y == 100.0) &&
              (d in {Left, Right} ==> p.y == item.y) &&
              (d == Left ==> p.x == -200.0) &&
              (d == Right ==> p.x == innerWidth + 200.0) &&
              (d == Center ==> p.x + item.w / 2.0 == container.value.width / 2.0 &&
                               p.y + item.h / 2.0 == container.value.height / 2.0))
  {
  }

  /** The start delay of the tile at grid position `index`: with a
      non-negative stagger, never negative and never more than one row's
      worth of stagger. */
  function EntranceDelay(index: nat, columns: nat, stagger: real): (d: real)
    requires columns > 0
    ensures stagger >= 0.0 ==> 0.0 <= d <= (columns - 1) as real * stagger
  {
    if stagger >= 0.0 then
      TimesMonotone(index % columns, columns - 1, stagger);
      TimesIsProduct(columns - 1, stagger);
      Times(index % columns, stagger)
    else
      Times(index % columns, stagger)
  }

  /** The first row's tiles start one stagger apart, left to right, and no
      tile waits longer than one row's worth of stagger. */
  lemma DelayBounds(index: nat, columns: nat, stagger: real)
    requires columns > 0 && stagger >= 0.0
    ensures index < columns ==> EntranceDelay(index, columns, stagger) == index as real * stagger
    ensures 0.0 <= EntranceDelay(index, columns, stagger) <= (columns - 1) as real * stagger
  {
    var k := index % columns;
    if index < columns {
      assert k == index;
      TimesIsProduct(index, stagger);
    }
    TimesMonotone(k, columns - 1, stagger);
    TimesIsProduct(columns - 1, stagger);
  }

  /** The delay follows grid order, not the column a tile lands on: in the
      six-item trace the fourth tile sits on column 1 yet starts with no
      delay. */
  lemma DelayIsNotByColumn(items: seq<MasonryItem>, stagger: real)
    requires |items| == 6
    requires items[0].height == 400.0 && items[1].height == 250.0 && items[2].height == 600.0
    requires items[3].height == 400.0 && items[4].height == 300.0 && items[5].height == 500.0
    requires stagger > 0.0
    ensures EntranceDelay(3, 3, stagger) == 0.0
    ensures EntranceDelay(ColumnOf(items, 3, 3), 3, stagger) == stagger
  {
    SixItemHeights(items);
  }

  // ---------------------------------------------------------------------------
  // Lightbox

  const Grayscale: string := "?grayscale"

  /** `url.replace('?grayscale', '')`: only the first occurrence goes. */
  function ColorUrl(url: string): (r: string)
    ensures IndexOf(url, Grayscale).None? ==> r == url
    ensures IndexOf(url, Grayscale).Some? ==>
      var k := IndexOf(url, Grayscale).value;
      r == url[..k] + url[k + |Grayscale|..] &&
      OccursAt(url, Grayscale, k) &&
      forall j :: 0 <= j < k ==> !OccursAt(url, Grayscale, j)
  {
    match IndexOf(url, Grayscale)
    case None => url
    case Some(k) => url[..k] + url[k + |Grayscale|..]
  }

  /** The colour URL is the URL itself exactly when it holds no
      `?grayscale`, and one marker shorter otherwise. */
  lemma ColorUrlIdentity(url: string)
    ensures ColorUrl(url) == url <==> forall j :: 0 <= j <= |url| ==> !OccursAt(url, Grayscale, j)
    ensures IndexOf(url, Grayscale).Some? ==> |ColorUrl(url)| == |url| - |Grayscale|
  {
    var r := IndexOf(url, Grayscale);
    if r.Some? {
      assert |ColorUrl(url)| == |url| - |Grayscale|;
      assert OccursAt(url, Grayscale, r.value);
    }
  }

  /** The selected tile of the lightbox. */
  class Lightbox {
    var selected: Option<GridItem>

    constructor ()
      ensures selected == None
    {
      selected := None;
    }

    /** Clicking a tile shows it, replacing any tile shown before. */
    method Open(item: GridItem)
      modifies this
      ensures selected == Some(item)
    {
      selected := Some(item);
    }

    /** The close button and the backdrop clear the selection (once the
        fade-out completes). */
    method Close()
      modifies this
      ensures selected == None
    {
      selected := None;
    }

    /** The image the modal shows: the selected tile in colour. */
    function ModalImage(): (src: Option<string>)
      reads this
      ensures src.None? <==> selected.None?
      ensures selected.Some? ==> src.value == ColorUrl(selected.value.img)
    {
      if selected.None? then None else Some(ColorUrl(selected.value.img))
    }
  }
}
