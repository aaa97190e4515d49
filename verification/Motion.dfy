/**
 * The macroblock motion detector: what one analysis must answer (Analysed), the laws that answer obeys,
 * and the detector class proved against it.
 */
module Motion {
  import opened Common
  import opened Zones

  /** The part of the configuration the detector is built from. */
  datatype Config = Config(frameWidth: nat, frameHeight: nat, blockSize: int, motionThreshold: real,
                           minActiveBlocks: int, lightingShiftRatio: real, excludeZones: seq<Zone>)

  datatype MotionResult = MotionResult(hasMotion: bool, activeBlocks: int, totalBlocks: int, effectiveBlocks: int,
                                       isLightingShift: bool, maxBlockDelta: real, motionBox: Option<Box>)

  /** The detector's fixed parameters. */
  datatype Grid = Grid(width: int, height: int, bs: int, gridW: int, gridH: int, effective: int,
                       threshold: real, minActive: int, shiftRatio: real, masked: seq<bool>)
  {
    function Total(): int { gridW * gridH }

    ghost predicate Valid() {
      && width >= 0 && height >= 0 && bs > 0
      && gridW == width / bs >= 0 && gridH == height / bs >= 0
      && |masked| == Total()
      && effective == Max(1, |Unmasked()|)
    }

    ghost function Unmasked(): set<int> {
      set i | 0 <= i < |masked| && !masked[i]
    }

    /** Left column and top row of block i. */
    function Left(i: int): int requires gridW != 0 { i % gridW * bs }
    function Top(i: int): int requires gridW != 0 { i / gridW * bs }
  }

  // ------------------------------------------------------------ sums of absolute differences

  function Abs(d: int): (r: nat)
    ensures r == d || r == -d
  {
    if d < 0 then -d else d
  }

  /** Sample i, and 0 outside the plane; BlockReadsInBounds shows a block never reads outside. */
  function Lum(a: Plane, i: int): int {
    if 0 <= i < |a| then a[i] else 0
  }

  /** Difference over n samples from address i. */
  function RowSad(a: Plane, b: Plane, i: int, n: nat): nat {
    if n == 0 then 0 else RowSad(a, b, i, n - 1) + Abs(Lum(a, i + n - 1) - Lum(b, i + n - 1))
  }

  /** Difference over the wd by ht rectangle at (x, y) of planes of width w. */
  function RectSad(a: Plane, b: Plane, w: int, x: int, y: int, wd: nat, ht: nat): nat {
    if ht == 0 then 0 else RectSad(a, b, w, x, y, wd, ht - 1) + RowSad(a, b, At(x, y + ht - 1, w), wd)
  }

  function BlockSad(g: Grid, a: Plane, b: Plane, i: int): nat
    requires g.gridW != 0 && g.bs > 0
  {
    RectSad(a, b, g.width, g.Left(i), g.Top(i), g.bs, g.bs)
  }

  /** Mean absolute difference of block i. */
  function Mad(g: Grid, a: Plane, b: Plane, i: int): real
    requires g.gridW != 0 && g.bs > 0
  {
    BlockSad(g, a, b, i) as real / (g.bs * g.bs) as real
  }

  // ------------------------------------------------------------ what one analysis must answer

  predicate Active(g: Grid, last: Plane, cur: Plane, i: int)
    requires g.gridW != 0 && g.bs > 0 && 0 <= i < |g.masked|
  {
    !g.masked[i] && Mad(g, last, cur, i) >= g.threshold
  }

  /** The per-block facts of one comparison: mask, mean absolute difference, column and row in the grid. */
  datatype Blocks = Blocks(masked: seq<bool>, delta: seq<real>, col: seq<int>, row: seq<int>) {
    ghost predicate Valid(gridW: int, gridH: int) {
      && |masked| == |delta| == |col| == |row|
      && forall i :: 0 <= i < |col| ==> 0 <= col[i] < gridW && 0 <= row[i] < gridH
    }

    /** Among the first n blocks: the unmasked ones whose difference reaches the threshold. */
    ghost function Active(threshold: real, n: int): set<int>
      requires |masked| == |delta|
    {
      set i | 0 <= i < n && i < |delta| && !masked[i] && delta[i] >= threshold
    }

    /** m is the largest difference of an unmasked block among the first n, or 0 when there is none. */
    ghost predicate IsMaxDelta(n: int, m: real)
      requires |masked| == |delta|
    {
      && (forall i :: 0 <= i < n && i < |delta| && !masked[i] ==> delta[i] <= m)
      && (m == 0.0 || exists i :: 0 <= i < n && i < |delta| && !masked[i] && delta[i] == m)
      && m >= 0.0
    }
  }

  ghost function BlocksOf(g: Grid, last: Plane, cur: Plane): (b: Blocks)
    requires g.Valid()
    ensures b.Valid(g.gridW, g.gridH) && b.masked == g.masked
    ensures forall i :: 0 <= i < g.Total() ==> b.delta[i] == Mad(g, last, cur, i)
  {
    var n := g.Total();
    assert forall i :: 0 <= i < n ==> 0 <= i % g.gridW < g.gridW && 0 <= i / g.gridW < g.gridH by {
      forall i | 0 <= i < n
        ensures 0 <= i % g.gridW < g.gridW && 0 <= i / g.gridW < g.gridH
      {
        BlockIndex(g, i);
      }
    }
    Blocks(g.masked,
           seq(n, i requires 0 <= i < n => Mad(g, last, cur, i)),
           seq(n, i requires 0 <= i < n => i % g.gridW),
           seq(n, i requires 0 <= i < n => i / g.gridW))
  }

  ghost function ActiveSet(g: Grid, last: Plane, cur: Plane): set<int>
    requires g.Valid()
  {
    BlocksOf(g, last, cur).Active(g.threshold, g.Total())
  }

  lemma InActiveSet(g: Grid, last: Plane, cur: Plane, i: int)
    requires g.Valid()
    ensures i in ActiveSet(g, last, cur) <==> 0 <= i < g.Total() && Active(g, last, cur, i)
  {
  }

  /** Block i lies inside box k. */
  predicate Inside(g: Grid, i: int, k: Box)
    requires g.gridW != 0
  {
    k.x1 <= g.Left(i) && g.Left(i) + g.bs <= k.x2 && k.y1 <= g.Top(i) && g.Top(i) + g.bs <= k.y2
  }

  /** k holds every block of s, and each of its four sides is the side of some block of s. */
  ghost predicate Tight(g: Grid, s: set<int>, k: Box)
    requires g.gridW != 0
  {
    && (forall i :: i in s ==> Inside(g, i, k))
    && (exists i :: i in s && g.Left(i) == k.x1)
    && (exists i :: i in s && g.Left(i) + g.bs == k.x2)
    && (exists i :: i in s && g.Top(i) == k.y1)
    && (exists i :: i in s && g.Top(i) + g.bs == k.y2)
  }

  /** r is the answer for frame cur when prev is the frame analysed before it. */
  ghost predicate Analysed(g: Grid, prev: Option<Plane>, cur: Plane, r: MotionResult)
    requires g.Valid()
  {
    && r.totalBlocks == g.Total() && r.effectiveBlocks == g.effective
    && match prev
       case None =>
         !r.hasMotion && r.activeBlocks == 0 && !r.isLightingShift && r.maxBlockDelta == 0.0 && r.motionBox == None
       case Some(last) =>
         var active := ActiveSet(g, last, cur);
         && r.activeBlocks == |active|
         && BlocksOf(g, last, cur).IsMaxDelta(g.Total(), r.maxBlockDelta)
         && (r.isLightingShift <==> |active| as real / g.effective as real >= g.shiftRatio)
         && (r.hasMotion <==> |active| >= g.minActive && !r.isLightingShift)
         && (r.motionBox.Some? <==> r.hasMotion && active != {})
         && (r.motionBox.Some? ==> Tight(g, active, r.motionBox.value))
  }

  /** The answer is a function of the two frames. */
  lemma {:induction false} AnalysedUnique(g: Grid, prev: Option<Plane>, cur: Plane, r: MotionResult, q: MotionResult)
    requires g.Valid() && Analysed(g, prev, cur, r) && Analysed(g, prev, cur, q)
    ensures r == q
  {
    if prev.Some? && r.motionBox.Some? {
      var s := ActiveSet(g, prev.value, cur);
      TightBelow(g, s, r.motionBox.value, q.motionBox.value);
      TightBelow(g, s, q.motionBox.value, r.motionBox.value);
    }
  }

  /** A tight box lies within every box that holds the blocks: it is the smallest one. */
  lemma TightBelow(g: Grid, s: set<int>, k: Box, outer: Box)
    requires g.gridW != 0 && Tight(g, s, k) && forall i :: i in s ==> Inside(g, i, outer)
    ensures outer.x1 <= k.x1 && k.x2 <= outer.x2 && outer.y1 <= k.y1 && k.y2 <= outer.y2
  {
  }

  // ------------------------------------------------------------ geometry

  lemma {:induction false} BlockReadsInBounds(g: Grid, i: int, x: int, y: int)
    requires g.Valid() && 0 <= i < g.Total()
    requires g.Left(i) <= x < g.Left(i) + g.bs && g.Top(i) <= y < g.Top(i) + g.bs
    ensures 0 <= x < g.gridW * g.bs <= g.width && 0 <= y < g.gridH * g.bs <= g.height
    ensures 0 <= At(x, y, g.width) < g.width * g.height
  {
    BlockInFrame(g, i);
    AtInBounds(x, y, g.width, g.height);
  }

  lemma BlockIndex(g: Grid, i: int)
    requires g.gridW >= 0 && 0 <= i < g.Total()
    ensures g.gridW > 0 && 0 <= i % g.gridW < g.gridW && 0 <= i / g.gridW < g.gridH
  {
    assert g.gridW != 0;
    DivStep(i, g.gridW);
    MulOrder(g.gridH, i / g.gridW, g.gridW);
  }

  /** Each pixel of the covered region belongs to block x/bs, y/bs and to no other. */
  lemma {:induction false} PixelHasOneBlock(g: Grid, x: int, y: int)
    requires g.Valid() && 0 <= x < g.gridW * g.bs && 0 <= y < g.gridH * g.bs
    ensures g.gridW > 0
    ensures var home := At(x / g.bs, y / g.bs, g.gridW);
            && 0 <= home < g.Total()
            && forall i :: 0 <= i < g.Total() ==>
                 (InBlock(x, y, i % g.gridW, i / g.gridW, g.bs) <==> i == home)
  {
    HomeInGrid(x, g.gridW, g.bs);
    HomeInGrid(y, g.gridH, g.bs);
    AtInBounds(x / g.bs, y / g.bs, g.gridW, g.gridH);
    forall i | 0 <= i < g.Total()
      ensures InBlock(x, y, i % g.gridW, i / g.gridW, g.bs) <==> i == At(x / g.bs, y / g.bs, g.gridW)
    {
      BlockOfPixel(x, y, i, g.gridW, g.bs);
    }
  }

  lemma BlockOfPixel(x: int, y: int, i: int, gridW: int, bs: int)
    requires bs > 0 && 0 <= x / bs < gridW
    ensures InBlock(x, y, i % gridW, i / gridW, bs) <==> i == At(x / bs, y / bs, gridW)
  {
    StepUnique(x, i % gridW, bs);
    StepUnique(y, i / gridW, bs);
    AtDivMod(x / bs, y / bs, gridW);
    AtOfParts(i, gridW);
  }

  lemma HomeInGrid(v: int, n: int, k: int)
    requires k > 0 && 0 <= v < n * k
    ensures 0 <= v / k < n
  {
    DivStep(v, k);
    MulOrder(n, v / k, k);
  }

  /** A reported box is non-empty, inside the covered part of the frame, and so never clamped. */
  lemma {:induction false} BoxInsideFrame(g: Grid, s: set<int>, k: Box)
    requires g.Valid() && g.gridW != 0 && Tight(g, s, k) && forall i :: i in s ==> 0 <= i < g.Total()
    ensures 0 <= k.x1 < k.x2 <= g.gridW * g.bs <= g.width
    ensures 0 <= k.y1 < k.y2 <= g.gridH * g.bs <= g.height
  {
    forall i | i in s
      ensures 0 <= g.Left(i) && g.Left(i) + g.bs <= g.gridW * g.bs <= g.width
      ensures 0 <= g.Top(i) && g.Top(i) + g.bs <= g.gridH * g.bs <= g.height
    {
      BlockInFrame(g, i);
    }
  }

  /** The box of an answer is the smallest one holding every active block, and lies inside the frame. */
  lemma {:induction false} ReportedBoxIsExact(g: Grid, last: Plane, cur: Plane, r: MotionResult)
    requires g.Valid() && g.gridW != 0 && Analysed(g, Some(last), cur, r) && r.motionBox.Some?
    ensures var k := r.motionBox.value;
            && 0 <= k.x1 < k.x2 <= g.width && 0 <= k.y1 < k.y2 <= g.height
            && (forall i :: 0 <= i < g.Total() && Active(g, last, cur, i) ==> Inside(g, i, k))
            && forall outer :: (forall i :: 0 <= i < g.Total() && Active(g, last, cur, i) ==> Inside(g, i, outer)) ==>
                 outer.x1 <= k.x1 && k.x2 <= outer.x2 && outer.y1 <= k.y1 && k.y2 <= outer.y2
  {
    var s, k := ActiveSet(g, last, cur), r.motionBox.value;
    forall i
      ensures i in s <==> 0 <= i < g.Total() && Active(g, last, cur, i)
    {
      InActiveSet(g, last, cur, i);
    }
    BoxInsideFrame(g, s, k);
    forall outer | forall i :: 0 <= i < g.Total() && Active(g, last, cur, i) ==> Inside(g, i, outer)
      ensures outer.x1 <= k.x1 && k.x2 <= outer.x2 && outer.y1 <= k.y1 && k.y2 <= outer.y2
    {
      TightBelow(g, s, k, outer);
    }
  }

  lemma BlockInFrame(g: Grid, i: int)
    requires g.Valid() && 0 <= i < g.Total()
    ensures g.gridW > 0
    ensures 0 <= g.Left(i) && g.Left(i) + g.bs <= g.gridW * g.bs <= g.width
    ensures 0 <= g.Top(i) && g.Top(i) + g.bs <= g.gridH * g.bs <= g.height
  {
    BlockIndex(g, i);
    var col, row := i % g.gridW, i / g.gridW;
    assert g.Left(i) == col * g.bs && g.Top(i) == row * g.bs;
    GridInFrame(col, g.width, g.bs);
    GridInFrame(row, g.height, g.bs);
  }

  // ------------------------------------------------------------ counting

  lemma {:induction false} ActiveWithinEffective(g: Grid, last: Plane, cur: Plane)
    requires g.Valid()
    ensures |ActiveSet(g, last, cur)| <= |g.Unmasked()| <= g.effective
    ensures 0.0 <= |ActiveSet(g, last, cur)| as real / g.effective as real <= 1.0
  {
    SubsetSize(ActiveSet(g, last, cur), g.Unmasked());
  }

  // ------------------------------------------------------------ laws of the sums

  lemma {:induction false} RowTriangle(a: Plane, b: Plane, c: Plane, i: int, n: nat)
    ensures RowSad(a, c, i, n) <= RowSad(a, b, i, n) + RowSad(b, c, i, n)
  {
    if n != 0 {
      RowTriangle(a, b, c, i, n - 1);
    }
  }

  lemma {:induction false} RectTriangle(a: Plane, b: Plane, c: Plane, w: int, x: int, y: int, wd: nat, ht: nat)
    ensures RectSad(a, c, w, x, y, wd, ht) <= RectSad(a, b, w, x, y, wd, ht) + RectSad(b, c, w, x, y, wd, ht)
  {
    if ht != 0 {
      RectTriangle(a, b, c, w, x, y, wd, ht - 1);
      RowTriangle(a, b, c, At(x, y + ht - 1, w), wd);
    }
  }

  lemma {:induction false} RowSplit(a: Plane, b: Plane, i: int, m: nat, n: nat)
    ensures RowSad(a, b, i, m + n) == RowSad(a, b, i, m) + RowSad(a, b, i + m, n)
  {
    if n != 0 {
      RowSplit(a, b, i, m, n - 1);
    }
  }

  lemma {:induction false} SplitColumns(a: Plane, b: Plane, w: int, x: int, y: int, m: nat, n: nat, ht: nat)
    ensures RectSad(a, b, w, x, y, m + n, ht) == RectSad(a, b, w, x, y, m, ht) + RectSad(a, b, w, x + m, y, n, ht)
  {
    if ht != 0 {
      SplitColumns(a, b, w, x, y, m, n, ht - 1);
      RowSplit(a, b, At(x, y + ht - 1, w), m, n);
    }
  }

  lemma {:induction false} SplitRows(a: Plane, b: Plane, w: int, x: int, y: int, wd: nat, m: nat, n: nat)
    ensures RectSad(a, b, w, x, y, wd, m + n) == RectSad(a, b, w, x, y, wd, m) + RectSad(a, b, w, x, y + m, wd, n)
  {
    if n != 0 {
      SplitRows(a, b, w, x, y, wd, m, n - 1);
    }
  }

  lemma {:induction false} RowBound(a: Plane, b: Plane, i: int, n: nat)
    ensures RowSad(a, b, i, n) <= 255 * n
  {
    if n != 0 {
      RowBound(a, b, i, n - 1);
    }
  }

  lemma {:induction false} RectBound(a: Plane, b: Plane, w: int, x: int, y: int, wd: nat, ht: nat)
    ensures RectSad(a, b, w, x, y, wd, ht) <= 255 * (wd * ht)
  {
    if ht != 0 {
      RectBound(a, b, w, x, y, wd, ht - 1);
      RowBound(a, b, At(x, y + ht - 1, w), wd);
      assert wd * ht == wd * (ht - 1) + wd;
    }
  }

  lemma {:induction false} RowShift(a: Plane, b: Plane, i: int, n: nat, delta: int)
    requires forall j :: i <= j < i + n ==> Lum(b, j) - Lum(a, j) == delta
    ensures RowSad(a, b, i, n) == Abs(delta) * n
  {
    if n != 0 {
      RowShift(a, b, i, n - 1, delta);
      assert Lum(b, i + n - 1) - Lum(a, i + n - 1) == delta;
      assert Abs(delta) * n == Abs(delta) * (n - 1) + Abs(delta);
    }
  }

  /** Every sample of the rectangle moves by delta from a to b. */
  ghost predicate ShiftedBy(a: Plane, b: Plane, w: int, x: int, y: int, wd: nat, ht: nat, delta: int) {
    forall u, v :: x <= u < x + wd && y <= v < y + ht ==> Lum(b, At(u, v, w)) - Lum(a, At(u, v, w)) == delta
  }

  lemma {:induction false} RectShift(a: Plane, b: Plane, w: int, x: int, y: int, wd: nat, ht: nat, delta: int)
    requires ShiftedBy(a, b, w, x, y, wd, ht, delta)
    ensures RectSad(a, b, w, x, y, wd, ht) == Abs(delta) * (wd * ht)
  {
    if ht != 0 {
      RectShift(a, b, w, x, y, wd, ht - 1, delta);
      var v := y + ht - 1;
      forall j | At(x, v, w) <= j < At(x, v, w) + wd
        ensures Lum(b, j) - Lum(a, j) == delta
      {
        assert j == At(x + (j - At(x, v, w)), v, w);
      }
      RowShift(a, b, At(x, v, w), wd, delta);
      AddRow(Abs(delta), wd, ht);
    }
  }

  lemma AddRow(d: int, wd: int, ht: int)
    ensures d * (wd * ht) == d * (wd * (ht - 1)) + d * wd
  {
    assert wd * ht == wd * (ht - 1) + wd;
  }

  lemma {:induction false} RowAgree(a: Plane, b: Plane, c: Plane, d: Plane, i: int, n: nat)
    requires forall j :: i <= j < i + n ==> Lum(a, j) == Lum(c, j) && Lum(b, j) == Lum(d, j)
    ensures RowSad(a, b, i, n) == RowSad(c, d, i, n)
  {
    if n != 0 {
      RowAgree(a, b, c, d, i, n - 1);
    }
  }

  ghost predicate SameRect(a: Plane, c: Plane, w: int, x: int, y: int, wd: nat, ht: nat) {
    forall u, v :: x <= u < x + wd && y <= v < y + ht ==> Lum(a, At(u, v, w)) == Lum(c, At(u, v, w))
  }

  lemma {:induction false} RectAgree(a: Plane, b: Plane, c: Plane, d: Plane, w: int, x: int, y: int, wd: nat, ht: nat)
    requires SameRect(a, c, w, x, y, wd, ht) && SameRect(b, d, w, x, y, wd, ht)
    ensures RectSad(a, b, w, x, y, wd, ht) == RectSad(c, d, w, x, y, wd, ht)
  {
    if ht != 0 {
      RectAgree(a, b, c, d, w, x, y, wd, ht - 1);
      var v := y + ht - 1;
      forall j | At(x, v, w) <= j < At(x, v, w) + wd
        ensures Lum(a, j) == Lum(c, j) && Lum(b, j) == Lum(d, j)
      {
        assert j == At(x + (j - At(x, v, w)), v, w);
      }
      RowAgree(a, b, c, d, At(x, v, w), wd);
    }
  }

  // ------------------------------------------------------------ conservation over the blocks

  /** Total difference of the first n blocks. */
  function SumBlocks(g: Grid, a: Plane, b: Plane, n: nat): nat
    requires g.gridW != 0 && g.bs > 0
  {
    if n == 0 then 0 else SumBlocks(g, a, b, n - 1) + BlockSad(g, a, b, n - 1)
  }

  /** The difference of the first `row` block rows and the first `col` blocks of the next one. */
  function FrontSad(g: Grid, a: Plane, b: Plane, row: nat, col: nat): nat
    requires g.gridW >= 0 && g.bs > 0
  {
    MulOrder(0, g.gridW, g.bs);
    MulOrder(0, row, g.bs);
    MulOrder(0, col, g.bs);
    RectSad(a, b, g.width, 0, 0, g.gridW * g.bs, row * g.bs)
    + RectSad(a, b, g.width, 0, row * g.bs, col * g.bs, g.bs)
  }

  lemma FrontNextBlock(g: Grid, a: Plane, b: Plane, row: nat, col: nat)
    requires g.gridW > 0 && g.bs > 0 && col < g.gridW
    ensures FrontSad(g, a, b, row, col + 1) == FrontSad(g, a, b, row, col) + BlockSad(g, a, b, At(col, row, g.gridW))
  {
    AtDivMod(col, row, g.gridW);
    MulOrder(0, col, g.bs);
    assert (col + 1) * g.bs == col * g.bs + g.bs;
    SplitColumns(a, b, g.width, 0, row * g.bs, col * g.bs, g.bs, g.bs);
  }

  lemma FrontNextRow(g: Grid, a: Plane, b: Plane, row: nat)
    requires g.gridW > 0 && g.bs > 0
    ensures FrontSad(g, a, b, row + 1, 0) == FrontSad(g, a, b, row, g.gridW)
  {
    EmptyRect(a, b, g.width, 0, (row + 1) * g.bs, g.bs);
    MulOrder(0, row, g.bs);
    MulOrder(0, g.gridW, g.bs);
    assert (row + 1) * g.bs == row * g.bs + g.bs;
    SplitRows(a, b, g.width, 0, 0, g.gridW * g.bs, row * g.bs, g.bs);
  }

  lemma SumNextBlock(g: Grid, a: Plane, b: Plane, row: nat, col: nat, n: nat)
    requires g.gridW > 0 && g.bs > 0 && col < g.gridW && n == At(col, row, g.gridW)
    requires SumBlocks(g, a, b, n) == FrontSad(g, a, b, row, col)
    ensures SumBlocks(g, a, b, n + 1) == FrontSad(g, a, b, row, col + 1)
  {
    FrontNextBlock(g, a, b, row, col);
  }

  lemma SumStart(g: Grid, a: Plane, b: Plane)
    requires g.gridW > 0 && g.bs > 0
    ensures SumBlocks(g, a, b, 0) == FrontSad(g, a, b, 0, 0)
  {
    EmptyRect(a, b, g.width, 0, 0, g.bs);
  }

  lemma {:induction false} SumAlongRow(g: Grid, a: Plane, b: Plane, row: nat, col: nat, n: nat)
    requires g.gridW > 0 && g.bs > 0 && col <= g.gridW && n == At(col, row, g.gridW) && col <= n
    requires SumBlocks(g, a, b, n - col) == FrontSad(g, a, b, row, 0)
    ensures SumBlocks(g, a, b, n) == FrontSad(g, a, b, row, col)
  {
    if col != 0 {
      SumAlongRow(g, a, b, row, col - 1, n - 1);
      SumNextBlock(g, a, b, row, col - 1, n - 1);
    }
  }

  lemma {:induction false} SumDownTo(g: Grid, a: Plane, b: Plane, row: nat, n: nat)
    requires g.gridW > 0 && g.bs > 0 && n == At(0, row, g.gridW)
    ensures SumBlocks(g, a, b, n) == FrontSad(g, a, b, row, 0)
  {
    if row == 0 {
      SumStart(g, a, b);
    } else {
      MulOrder(0, row - 1, g.gridW);
      assert At(g.gridW, row - 1, g.gridW) == n;
      SumDownTo(g, a, b, row - 1, n - g.gridW);
      SumAlongRow(g, a, b, row - 1, g.gridW, n);
      FrontNextRow(g, a, b, row - 1);
    }
  }

  lemma {:induction false} EmptyRect(a: Plane, b: Plane, w: int, x: int, y: int, ht: nat)
    ensures RectSad(a, b, w, x, y, 0, ht) == 0
  {
    if ht != 0 {
      EmptyRect(a, b, w, x, y, ht - 1);
    }
  }

  /** No difference is lost or counted twice: the blocks add up to the whole covered region. */
  lemma {:induction false} BlocksPartitionRegion(g: Grid, a: Plane, b: Plane)
    requires g.Valid() && g.gridW > 0
    ensures g.Total() >= 0 && g.gridW * g.bs >= 0 && g.gridH * g.bs >= 0
    ensures SumBlocks(g, a, b, g.Total()) == RectSad(a, b, g.width, 0, 0, g.gridW * g.bs, g.gridH * g.bs)
    ensures forall i :: 0 <= i < g.Total() ==> BlockSad(g, a, b, i) <= 255 * (g.bs * g.bs)
  {
    MulOrder(0, g.gridW, g.bs);
    MulOrder(0, g.gridH, g.bs);
    MulOrder(0, g.gridH, g.gridW);
    assert At(0, g.gridH, g.gridW) == g.Total();
    SumDownTo(g, a, b, g.gridH, g.Total());
    EmptyRect(a, b, g.width, 0, g.gridH * g.bs, g.bs);
    forall i | 0 <= i < g.Total()
      ensures BlockSad(g, a, b, i) <= 255 * (g.bs * g.bs)
    {
      RectBound(a, b, g.width, g.Left(i), g.Top(i), g.bs, g.bs);
    }
  }

  // ------------------------------------------------------------ no slow escape

  lemma MadTriangle(g: Grid, a: Plane, b: Plane, c: Plane, i: int)
    requires g.bs > 0 && g.gridW > 0
    ensures Mad(g, a, c, i) <= Mad(g, a, b, i) + Mad(g, b, c, i)
  {
    RectTriangle(a, b, c, g.width, g.Left(i), g.Top(i), g.bs, g.bs);
    MulOrder(0, g.bs, g.bs);
    QuotientSum(BlockSad(g, a, c, i), BlockSad(g, a, b, i), BlockSad(g, b, c, i), g.bs * g.bs);
  }

  lemma QuotientSum(n: int, p: int, q: int, k: int)
    requires k > 0 && n <= p + q
    ensures n as real / k as real <= p as real / k as real + q as real / k as real
  {
  }

  /** n shares, added up. */
  function Shares(n: nat, share: real): real {
    if n == 0 then 0.0 else Shares(n - 1, share) + share
  }

  lemma {:induction false} SharesAre(n: nat, share: real)
    ensures Shares(n, share) == n as real * share
  {
    if n != 0 {
      SharesAre(n - 1, share);
      assert (n - 1) as real * share == n as real * share - share;
    }
  }

  lemma ShareLess(total: real, before: real, step: real, n: nat, share: real)
    requires n >= 1 && total <= before + step && step < share && total >= n as real * share
    ensures before >= (n - 1) as real * share
  {
    assert (n - 1) as real * share == n as real * share - share;
  }

  /** Pigeonhole over the steps: whoever drifts n shares in n steps makes one step of at least a share. */
  lemma {:induction false} SomeStepDrifts(g: Grid, frames: seq<Plane>, n: nat, i: int, share: real) returns (k: int)
    requires g.bs > 0 && g.gridW > 0 && n >= 1 && |frames| == n + 1
    requires Mad(g, frames[0], frames[n], i) >= n as real * share
    ensures 0 <= k < n && Mad(g, frames[k], frames[k + 1], i) >= share
  {
    if n == 1 || Mad(g, frames[n - 1], frames[n], i) >= share {
      k := n - 1;
    } else {
      MadTriangle(g, frames[0], frames[n - 1], frames[n], i);
      ShareLess(Mad(g, frames[0], frames[n], i), Mad(g, frames[0], frames[n - 1], i),
                Mad(g, frames[n - 1], frames[n], i), n, share);
      k := SomeStepDrifts(g, frames[..n], n - 1, i, share);
    }
  }

  /** Total drift of block i over a run is at most the sum of its steps, so some step counts the block active. */
  lemma {:induction false} NoSlowEscape(g: Grid, frames: seq<Plane>, n: nat, i: int) returns (k: int)
    requires g.bs > 0 && g.gridW > 0 && 0 <= i < |g.masked| && !g.masked[i]
    requires n >= 1 && |frames| == n + 1
    requires Mad(g, frames[0], frames[n], i) >= n as real * g.threshold
    ensures 0 <= k < n && Active(g, frames[k], frames[k + 1], i)
  {
    k := SomeStepDrifts(g, frames, n, i, g.threshold);
  }

  /** The same law on the detector's answers: one of the analyses of the run reports the block. */
  lemma {:induction false} SlowDriftIsReported(g: Grid, frames: seq<Plane>, n: nat, rs: seq<MotionResult>, i: int)
    returns (k: int)
    requires g.Valid() && 0 <= i < g.Total() && !g.masked[i]
    requires n >= 1 && |frames| == n + 1 && |rs| == n
    requires forall k :: 0 <= k < n ==> Analysed(g, Some(frames[k]), frames[k + 1], rs[k])
    requires Mad(g, frames[0], frames[n], i) >= n as real * g.threshold
    ensures 0 <= k < n && rs[k].activeBlocks >= 1 && rs[k].maxBlockDelta >= g.threshold
  {
    BlockIndex(g, i);
    k := NoSlowEscape(g, frames, n, i);
    ActiveIsReported(g, frames[k], frames[k + 1], i, rs[k]);
  }

  lemma ActiveIsReported(g: Grid, last: Plane, cur: Plane, i: int, r: MotionResult)
    requires g.Valid() && 0 <= i < g.Total() && g.gridW != 0 && Active(g, last, cur, i)
    requires Analysed(g, Some(last), cur, r)
    ensures r.activeBlocks >= 1 && r.maxBlockDelta >= g.threshold
  {
    InActiveSet(g, last, cur, i);
    SubsetSize({i}, ActiveSet(g, last, cur));
    assert BlocksOf(g, last, cur).delta[i] >= g.threshold;
  }

  // ------------------------------------------------------------ mask non-interference

  /** Two frames agree on every pixel of every unmasked block. */
  ghost predicate AgreeUnmasked(g: Grid, a: Plane, c: Plane)
    requires g.Valid()
  {
    forall i :: 0 <= i < g.Total() && !g.masked[i] ==> SameRect(a, c, g.width, g.Left(i), g.Top(i), g.bs, g.bs)
  }

  lemma AnalysedTransfers(g: Grid, last: Plane, cur: Plane, last': Plane, cur': Plane, r: MotionResult)
    requires g.Valid()
    requires AgreeUnmasked(g, last, last') && AgreeUnmasked(g, cur, cur')
    requires Analysed(g, Some(last), cur, r)
    ensures Analysed(g, Some(last'), cur', r)
  {
    forall i | 0 <= i < g.Total() && !g.masked[i]
      ensures Mad(g, last, cur, i) == Mad(g, last', cur', i)
    {
      RectAgree(last, cur, last', cur', g.width, g.Left(i), g.Top(i), g.bs, g.bs);
    }
    assert ActiveSet(g, last, cur) == ActiveSet(g, last', cur');
    var m := r.maxBlockDelta;
    if m != 0.0 {
      var i :| 0 <= i < |g.masked| && !g.masked[i] && Mad(g, last, cur, i) == m;
      assert Mad(g, last', cur', i) == m;
    }
  }

  /** What the detector is told: a frame to look at, or to forget its reference. */
  datatype Event = Look(y: Plane) | Forget

  /** The frame last looked at since the last Forget. */
  function ReferenceAfter(es: seq<Event>): Option<Plane> {
    if es == [] then None
    else match es[|es| - 1]
         case Look(y) => Some(y)
         case Forget => None
  }

  /** rs[k] is the right answer wherever event k is a frame. */
  ghost predicate RunAnswers(g: Grid, es: seq<Event>, rs: seq<MotionResult>)
    requires g.Valid()
  {
    && |rs| == |es|
    && forall k :: 0 <= k < |es| && es[k].Look? ==> Analysed(g, ReferenceAfter(es[..k]), es[k].y, rs[k])
  }

  /** Whatever happens in excluded zones or in the uncovered strips, the answers of a run do not change. */
  lemma {:induction false} MaskNonInterference(g: Grid, es: seq<Event>, fs: seq<Event>,
                                               rs: seq<MotionResult>, qs: seq<MotionResult>)
    requires g.Valid() && |es| == |fs|
    requires forall k :: 0 <= k < |es| ==>
               es[k].Look? == fs[k].Look? && (es[k].Look? ==> AgreeUnmasked(g, es[k].y, fs[k].y))
    requires RunAnswers(g, es, rs) && RunAnswers(g, fs, qs)
    ensures forall k :: 0 <= k < |es| && es[k].Look? ==> rs[k] == qs[k]
  {
    forall k | 0 <= k < |es| && es[k].Look?
      ensures rs[k] == qs[k]
    {
      SameReference(g, es[..k], fs[..k]);
      SameAnswer(g, ReferenceAfter(es[..k]), es[k].y, ReferenceAfter(fs[..k]), fs[k].y, rs[k], qs[k]);
    }
  }

  /** The references agree on the unmasked blocks, or there is none in either run. */
  lemma SameReference(g: Grid, es: seq<Event>, fs: seq<Event>)
    requires g.Valid() && |es| == |fs|
    requires forall k :: 0 <= k < |es| ==>
               es[k].Look? == fs[k].Look? && (es[k].Look? ==> AgreeUnmasked(g, es[k].y, fs[k].y))
    ensures var p, q := ReferenceAfter(es), ReferenceAfter(fs);
            p.Some? == q.Some? && (p.Some? ==> AgreeUnmasked(g, p.value, q.value))
  {
  }

  lemma SameAnswer(g: Grid, p: Option<Plane>, a: Plane, q: Option<Plane>, c: Plane, r: MotionResult, s: MotionResult)
    requires g.Valid() && AgreeUnmasked(g, a, c)
    requires p.Some? == q.Some? && (p.Some? ==> AgreeUnmasked(g, p.value, q.value))
    requires Analysed(g, p, a, r) && Analysed(g, q, c, s)
    ensures r == s
  {
    if p.Some? {
      AnalysedTransfers(g, p.value, a, q.value, c, r);
    }
    AnalysedUnique(g, q, c, r, s);
  }

  // ------------------------------------------------------------ lighting

  /** Every sample of every unmasked block moves by the same amount. */
  ghost predicate UniformShift(g: Grid, a: Plane, b: Plane, delta: int)
    requires g.Valid()
  {
    forall i :: 0 <= i < g.Total() && !g.masked[i] ==> ShiftedBy(a, b, g.width, g.Left(i), g.Top(i), g.bs, g.bs, delta)
  }

  /** The size of a change is the change itself or its opposite, whichever is not negative. */
  predicate Reaches(delta: int, threshold: real) {
    delta as real >= threshold || (-delta) as real >= threshold
  }

  /** If every sample of a block moves by delta, its mean absolute difference is delta or -delta. */
  lemma {:induction false} ShiftedMad(g: Grid, last: Plane, cur: Plane, delta: int, i: int)
    requires g.bs > 0 && g.gridW != 0
    requires forall x, y :: g.Left(i) <= x < g.Left(i) + g.bs && g.Top(i) <= y < g.Top(i) + g.bs ==>
               Lum(cur, At(x, y, g.width)) == Lum(last, At(x, y, g.width)) + delta
    ensures delta >= 0 ==> Mad(g, last, cur, i) == delta as real
    ensures delta < 0 ==> Mad(g, last, cur, i) == (-delta) as real
  {
    RectShift(last, cur, g.width, g.Left(i), g.Top(i), g.bs, g.bs, delta);
    MulOrder(0, g.bs, g.bs);
    QuotientExact(Abs(delta), g.bs * g.bs);
  }

  /**
   * A uniform change of brightness that reaches the threshold makes every unmasked block active, one that does not
   * makes none. The first is a lighting shift, never motion, exactly when the configured ratio can be reached at all.
   */
  lemma {:induction false} UniformShiftSuppressed(g: Grid, last: Plane, cur: Plane, delta: int, r: MotionResult)
    requires g.Valid() && g.Unmasked() != {}
    requires UniformShift(g, last, cur, delta) && Analysed(g, Some(last), cur, r)
    ensures delta as real >= g.threshold || (-delta) as real >= g.threshold ==>
              && r.activeBlocks == r.effectiveBlocks == |g.Unmasked()|
              && (r.isLightingShift <==> g.shiftRatio <= 1.0)
              && (r.isLightingShift ==> !r.hasMotion && r.motionBox == None)
    ensures delta as real < g.threshold && (-delta) as real < g.threshold ==>
              r.activeBlocks == 0 && r.motionBox == None && (g.minActive > 0 ==> !r.hasMotion)
    ensures r.maxBlockDelta == (if delta >= 0 then delta as real else (-delta) as real)
  {
    ShiftActivatesAll(g, last, cur, delta);
    assert |g.Unmasked()| != 0;
    if Reaches(delta, g.threshold) {
      QuotientExact(1, g.effective);
    }
    ShiftIsLargest(g, last, cur, delta, r.maxBlockDelta);
  }

  lemma ShiftIsLargest(g: Grid, last: Plane, cur: Plane, delta: int, m: real)
    requires g.Valid() && g.Unmasked() != {} && UniformShift(g, last, cur, delta)
    requires BlocksOf(g, last, cur).IsMaxDelta(g.Total(), m)
    ensures m == (if delta >= 0 then delta as real else (-delta) as real)
  {
    var b, size := BlocksOf(g, last, cur), if delta >= 0 then delta as real else (-delta) as real;
    forall i | 0 <= i < g.Total() && !g.masked[i]
      ensures b.delta[i] == size
    {
      BlockIndex(g, i);
      ShiftedMad(g, last, cur, delta, i);
    }
    var i :| i in g.Unmasked();
    assert b.delta[i] <= m;
  }

  lemma ShiftActivatesAll(g: Grid, last: Plane, cur: Plane, delta: int)
    requires g.Valid() && UniformShift(g, last, cur, delta)
    ensures ActiveSet(g, last, cur) == if Reaches(delta, g.threshold) then g.Unmasked() else {}
  {
    forall i | 0 <= i < g.Total()
      ensures i in ActiveSet(g, last, cur) <==> !g.masked[i] && Reaches(delta, g.threshold)
    {
      ShiftActivates(g, last, cur, delta, i);
    }
  }

  lemma ShiftActivates(g: Grid, last: Plane, cur: Plane, delta: int, i: int)
    requires g.Valid() && 0 <= i < g.Total()
    requires g.gridW != 0 && (!g.masked[i] ==> ShiftedBy(last, cur, g.width, g.Left(i), g.Top(i), g.bs, g.bs, delta))
    ensures i in ActiveSet(g, last, cur) <==> !g.masked[i] && Reaches(delta, g.threshold)
  {
    InActiveSet(g, last, cur, i);
    if !g.masked[i] {
      ShiftedMad(g, last, cur, delta, i);
    }
  }

  lemma QuotientExact(d: int, k: int)
    requires k > 0
    ensures (d * k) as real / k as real == d as real
  {
    assert (d * k) as real == d as real * k as real;
  }

  // ------------------------------------------------------------ the scan

  /** What a scan keeps between blocks. */
  datatype Tally = Tally(active: int, maxDelta: real, minCol: int, maxCol: int, minRow: int, maxRow: int)

  /** t sums up the blocks before n. */
  ghost predicate TallyOf(b: Blocks, threshold: real, gridW: int, gridH: int, n: int, t: Tally)
    requires b.Valid(gridW, gridH)
  {
    var s := b.Active(threshold, n);
    && t.active == |s|
    && b.IsMaxDelta(n, t.maxDelta)
    && (s == {} ==> t.minCol == gridW && t.maxCol == -1 && t.minRow == gridH && t.maxRow == -1)
    && (s != {} ==> Extremes(b, s, t))
  }

  /** The tally's columns and rows are the extreme ones of s. */
  ghost predicate Extremes(b: Blocks, s: set<int>, t: Tally)
    requires |b.col| == |b.row|
  {
    && (forall i :: i in s ==> 0 <= i < |b.col| && t.minCol <= b.col[i] <= t.maxCol && t.minRow <= b.row[i] <= t.maxRow)
    && (exists i :: i in s && b.col[i] == t.minCol)
    && (exists i :: i in s && b.col[i] == t.maxCol)
    && (exists i :: i in s && b.row[i] == t.minRow)
    && (exists i :: i in s && b.row[i] == t.maxRow)
  }

  /** Takes one unmasked block into the tally. */
  method CountBlock(before: Tally, col: int, row: int, blockMAD: real, threshold: real) returns (t: Tally)
    ensures t == Counted(before, col, row, blockMAD, threshold)
  {
    t := before;
    if blockMAD > t.maxDelta {
      t := t.(maxDelta := blockMAD);
    }
    if blockMAD >= threshold {
      t := t.(active := t.active + 1);
      if col < t.minCol {
        t := t.(minCol := col);
      }
      if col > t.maxCol {
        t := t.(maxCol := col);
      }
      if row < t.minRow {
        t := t.(minRow := row);
      }
      if row > t.maxRow {
        t := t.(maxRow := row);
      }
    }
  }

  function Counted(t: Tally, col: int, row: int, delta: real, threshold: real): Tally {
    var m := if delta > t.maxDelta then delta else t.maxDelta;
    if delta >= threshold
    then Tally(t.active + 1, m, Min(t.minCol, col), Max(t.maxCol, col), Min(t.minRow, row), Max(t.maxRow, row))
    else t.(maxDelta := m)
  }

  /** Block n extends the tally by itself, or not at all when it is masked. */
  lemma TallyStep(b: Blocks, threshold: real, gridW: int, gridH: int, n: int, t: Tally, u: Tally)
    requires b.Valid(gridW, gridH) && 0 <= n < |b.col|
    requires TallyOf(b, threshold, gridW, gridH, n, t)
    requires u == if b.masked[n] then t else Counted(t, b.col[n], b.row[n], b.delta[n], threshold)
    ensures TallyOf(b, threshold, gridW, gridH, n + 1, u)
  {
    ActiveStep(b, threshold, n);
    DeltaStep(b, n, t.maxDelta);
    if !b.masked[n] && b.delta[n] >= threshold {
      ExtremesStep(b, gridW, gridH, b.Active(threshold, n), n, t, u);
    } else if b.Active(threshold, n) != {} {
      SameExtremes(b, b.Active(threshold, n), t, u);
    }
  }

  lemma ActiveStep(b: Blocks, threshold: real, n: int)
    requires |b.masked| == |b.delta| && 0 <= n < |b.delta|
    ensures b.Active(threshold, n + 1) ==
            b.Active(threshold, n) + if !b.masked[n] && b.delta[n] >= threshold then {n} else {}
    ensures n !in b.Active(threshold, n)
  {
  }

  lemma SameExtremes(b: Blocks, s: set<int>, t: Tally, u: Tally)
    requires |b.col| == |b.row| && Extremes(b, s, t)
    requires t.minCol == u.minCol && t.maxCol == u.maxCol && t.minRow == u.minRow && t.maxRow == u.maxRow
    ensures Extremes(b, s, u)
  {
  }

  lemma ExtremesStep(b: Blocks, gridW: int, gridH: int, s: set<int>, n: int, t: Tally, u: Tally)
    requires b.Valid(gridW, gridH) && 0 <= n < |b.col|
    requires s == {} ==> t.minCol == gridW && t.maxCol == -1 && t.minRow == gridH && t.maxRow == -1
    requires s != {} ==> Extremes(b, s, t)
    requires u.minCol == Min(t.minCol, b.col[n]) && u.maxCol == Max(t.maxCol, b.col[n])
    requires u.minRow == Min(t.minRow, b.row[n]) && u.maxRow == Max(t.maxRow, b.row[n])
    ensures Extremes(b, s + {n}, u)
  {
    var s' := s + {n};
    assert n in s' && forall i :: i in s ==> i in s';
  }

  lemma DeltaStep(b: Blocks, n: int, m: real)
    requires |b.masked| == |b.delta| && 0 <= n < |b.delta| && b.IsMaxDelta(n, m)
    ensures b.IsMaxDelta(n + 1, if !b.masked[n] && b.delta[n] > m then b.delta[n] else m)
  {
  }

  /** What the scan has found after the first n blocks. */
  ghost function TallyUpTo(b: Blocks, threshold: real, gridW: int, gridH: int, n: nat): Tally
    requires |b.masked| == |b.delta| == |b.col| == |b.row| && n <= |b.col|
  {
    if n == 0 then Tally(0, 0.0, gridW, -1, gridH, -1)
    else
      var t := TallyUpTo(b, threshold, gridW, gridH, n - 1);
      if b.masked[n - 1] then t else Counted(t, b.col[n - 1], b.row[n - 1], b.delta[n - 1], threshold)
  }

  lemma {:induction false} TallyUpToIsTally(b: Blocks, threshold: real, gridW: int, gridH: int, n: nat)
    requires b.Valid(gridW, gridH) && n <= |b.col|
    ensures TallyOf(b, threshold, gridW, gridH, n, TallyUpTo(b, threshold, gridW, gridH, n))
  {
    if n != 0 {
      TallyUpToIsTally(b, threshold, gridW, gridH, n - 1);
      TallyStep(b, threshold, gridW, gridH, n - 1, TallyUpTo(b, threshold, gridW, gridH, n - 1),
                TallyUpTo(b, threshold, gridW, gridH, n));
    }
  }

  /** A tally of all blocks holds the facts an answer is made of. */
  lemma ScanAnswers(g: Grid, last: Plane, cur: Plane)
    requires g.Valid()
    ensures var s := ActiveSet(g, last, cur);
            var t := TallyUpTo(BlocksOf(g, last, cur), g.threshold, g.gridW, g.gridH, g.Total());
            && t.active == |s|
            && BlocksOf(g, last, cur).IsMaxDelta(g.Total(), t.maxDelta)
            && (s == {} <==> t.maxCol < 0)
            && (s != {} ==> g.gridW > 0 && Tight(g, s, Corners(t, g.bs)))
            && forall i :: i in s ==> 0 <= i < g.Total()
  {
    var s := ActiveSet(g, last, cur);
    var t := TallyUpTo(BlocksOf(g, last, cur), g.threshold, g.gridW, g.gridH, g.Total());
    TallyUpToIsTally(BlocksOf(g, last, cur), g.threshold, g.gridW, g.gridH, g.Total());
    if s != {} {
      var i :| i in s;
      BlockIndex(g, i);
      ExtremesAreTight(g, BlocksOf(g, last, cur), s, t);
    }
  }

  /** The corners a complete tally stands for. */
  function Corners(t: Tally, bs: int): Box {
    Box(t.minCol * bs, t.minRow * bs, (t.maxCol + 1) * bs, (t.maxRow + 1) * bs)
  }

  lemma ExtremesAreTight(g: Grid, b: Blocks, s: set<int>, t: Tally)
    requires g.gridW > 0 && g.bs > 0 && |b.col| == |b.row| && Extremes(b, s, t)
    requires forall i :: 0 <= i < |b.col| ==> b.col[i] == i % g.gridW && b.row[i] == i / g.gridW
    ensures Tight(g, s, Corners(t, g.bs))
  {
    forall i | i in s
      ensures Inside(g, i, Corners(t, g.bs))
    {
      SpanScaled(t.minCol, b.col[i], t.maxCol, g.bs);
      SpanScaled(t.minRow, b.row[i], t.maxRow, g.bs);
    }
    var p :| p in s && b.col[p] == t.maxCol;
    SpanScaled(b.col[p], b.col[p], t.maxCol, g.bs);
    assert p in s && g.Left(p) + g.bs == Corners(t, g.bs).x2;
    var q :| q in s && b.row[q] == t.maxRow;
    SpanScaled(b.row[q], b.row[q], t.maxRow, g.bs);
    assert q in s && g.Top(q) + g.bs == Corners(t, g.bs).y2;
  }

  lemma SpanScaled(lo: int, v: int, hi: int, k: int)
    requires k > 0 && lo <= v <= hi
    ensures lo * k <= v * k && v * k + k <= (hi + 1) * k
    ensures v == hi ==> v * k + k == (hi + 1) * k
  {
    MulOrder(lo, v, k);
    MulLess(v, hi + 1, k);
  }

  // ------------------------------------------------------------ the detector

  class MacroblockDetector {
    const width: int
    const height: int
    const blockSize: int
    const gridW: int
    const gridH: int
    const totalBlocks: int
    const effectiveBlocks: int
    const threshold: real
    const minActiveBlocks: int
    const lightingShiftRatio: real
    const isMasked: array<bool>
    const lastY: array<Byte>
    var hasLastFrame: bool
    /** Everything the detector was told so far. */
    ghost var history: seq<Event>

    function View(): Grid
      reads isMasked
    {
      Grid(width, height, blockSize, gridW, gridH, effectiveBlocks, threshold, minActiveBlocks, lightingShiftRatio,
           isMasked[..])
    }

    ghost predicate Valid()
      reads this, isMasked, lastY
    {
      && View().Valid()
      && totalBlocks == gridW * gridH
      && lastY.Length == width * height
      && (if hasLastFrame then Some(lastY[..]) else None) == ReferenceAfter(history)
    }

    /**
     * Compares the current plane with the reference and then makes it the reference. The answer is right
     * with respect to the frame analysed before it, none right after construction or Reset.
     */
    method Analyze(currentY: Plane) returns (r: MotionResult)
      requires Valid() && |currentY| == width * height
      modifies this, lastY
      ensures Valid() && View() == old(View())
      ensures history == old(history) + [Look(currentY)]
      ensures Analysed(View(), ReferenceAfter(old(history)), currentY, r)
      ensures hasLastFrame && lastY[..] == currentY && effectiveBlocks >= 1
      ensures r.totalBlocks == totalBlocks && r.effectiveBlocks == effectiveBlocks
      ensures !old(hasLastFrame) ==> r == MotionResult(false, 0, totalBlocks, effectiveBlocks, false, 0.0, None)
      ensures old(hasLastFrame) ==>
                && (r.isLightingShift <==> r.activeBlocks as real / effectiveBlocks as real >= lightingShiftRatio)
                && (r.hasMotion <==> r.activeBlocks >= minActiveBlocks && !r.isLightingShift)
                && (r.motionBox.Some? <==> r.hasMotion && r.activeBlocks > 0)
    {
      if !hasLastFrame {
        CopyReference(currentY);
        hasLastFrame := true;
        history := history + [Look(currentY)];
        return MotionResult(false, 0, totalBlocks, effectiveBlocks, false, 0.0, None);
      }
      ghost var last := lastY[..];
      EstablishAllKnown(currentY);
      var t := Scan(currentY, BlocksOf(View(), last, currentY));
      CopyReference(currentY);
      history := history + [Look(currentY)];
      r := Conclude(t, last, currentY);
    }

    /** Turns the tally of a scan into an answer. */
    method Conclude(t: Tally, ghost last: Plane, ghost cur: Plane) returns (r: MotionResult)
      requires View().Valid() && totalBlocks == gridW * gridH
      requires t == TallyUpTo(BlocksOf(View(), last, cur), threshold, gridW, gridH, totalBlocks)
      ensures Analysed(View(), Some(last), cur, r)
    {
      ScanAnswers(View(), last, cur);
      var ratio := t.active as real / effectiveBlocks as real;
      var isLightingShift := ratio >= lightingShiftRatio;
      var hasMotion := t.active >= minActiveBlocks && !isLightingShift;
      var motionBox := None;
      if hasMotion && t.maxCol >= 0 {
        BoxInsideFrame(View(), ActiveSet(View(), last, cur), Corners(t, blockSize));
        var x1, y1 := t.minCol * blockSize, t.minRow * blockSize;
        var x2, y2 := (t.maxCol + 1) * blockSize, (t.maxRow + 1) * blockSize;
        if x2 > width {
          x2 := width;
        }
        if y2 > height {
          y2 := height;
        }
        assert Box(x1, y1, x2, y2) == Corners(t, blockSize);
        motionBox := Some(Box(x1, y1, x2, y2));
      }
      r := MotionResult(hasMotion, t.active, totalBlocks, effectiveBlocks, isLightingShift, t.maxDelta, motionBox);
    }

    /** Drops the reference: the next frame is answered as a first frame. */
    method Reset()
      requires Valid()
      modifies this
      ensures Valid() && View() == old(View()) && history == old(history) + [Forget]
    {
      hasLastFrame := false;
      history := history + [Forget];
    }

    method CopyReference(currentY: Plane)
      requires |currentY| == lastY.Length
      modifies lastY
      ensures lastY[..] == currentY
    {
      forall i | 0 <= i < lastY.Length {
        lastY[i] := currentY[i];
      }
    }

    /** Block (col, row) lies in the frame, and b records what comparing it is going to show. */
    ghost predicate BlockKnown(currentY: Plane, b: Blocks, col: nat, row: nat)
      reads isMasked, lastY
    {
      gridW > 0 && blockSize > 0 &&
      var i := RowStart(row, gridW) + col;
      && |currentY| == lastY.Length == width * height
      && |b.masked| == |b.delta| == |b.col| == |b.row| == isMasked.Length && i < isMasked.Length
      && b.masked[i] == isMasked[i] && b.col[i] == col && b.row[i] == row
      && b.delta[i] == Mad(View(), lastY[..], currentY, i)
      && col * blockSize + blockSize <= width && row * blockSize + blockSize <= height
    }

    ghost predicate AllKnown(currentY: Plane, b: Blocks)
      reads isMasked, lastY
    {
      && gridW >= 0 && gridH >= 0
      && |b.masked| == |b.delta| == |b.col| == |b.row| == RowStart(gridH, gridW)
      && forall col: nat, row: nat :: col < gridW && row < gridH ==> BlockKnown(currentY, b, col, row)
    }

    lemma EstablishAllKnown(currentY: Plane)
      requires View().Valid() && |currentY| == lastY.Length == width * height
      ensures AllKnown(currentY, BlocksOf(View(), lastY[..], currentY))
    {
      var b := BlocksOf(View(), lastY[..], currentY);
      RowStartIsProduct(gridH, gridW);
      forall col: nat, row: nat | col < gridW && row < gridH
        ensures BlockKnown(currentY, b, col, row)
      {
        EstablishBlockKnown(currentY, col, row);
      }
    }

    lemma EstablishBlockKnown(currentY: Plane, col: nat, row: nat)
      requires View().Valid() && |currentY| == lastY.Length == width * height && col < gridW && row < gridH
      ensures BlockKnown(currentY, BlocksOf(View(), lastY[..], currentY), col, row)
    {
      RowStartIsProduct(row, gridW);
      AtInBounds(col, row, gridW, gridH);
      AtDivMod(col, row, gridW);
      GridInFrame(col, width, blockSize);
      GridInFrame(row, height, blockSize);
      assert View().masked[At(col, row, gridW)] == isMasked[At(col, row, gridW)];
    }

    /** Visits every block, row by row. */
    method Scan(currentY: Plane, ghost b: Blocks) returns (t: Tally)
      requires AllKnown(currentY, b)
      ensures t == TallyUpTo(b, threshold, gridW, gridH, |b.col|)
    {
      t := Tally(0, 0.0, gridW, -1, gridH, -1);
      ghost var next := 0;
      for row := 0 to gridH
        invariant next == RowStart(row, gridW) <= |b.col|
        invariant t == TallyUpTo(b, threshold, gridW, gridH, next)
      {
        RowFits(row, gridW, gridH);
        t := ScanRow(currentY, row, t, b);
        next := next + gridW;
      }
    }

    method ScanRow(currentY: Plane, row: nat, before: Tally, ghost b: Blocks) returns (t: Tally)
      requires AllKnown(currentY, b)
      requires row < gridH && RowStart(row, gridW) + gridW <= |b.col|
      requires before == TallyUpTo(b, threshold, gridW, gridH, RowStart(row, gridW))
      ensures t == TallyUpTo(b, threshold, gridW, gridH, RowStart(row, gridW) + gridW)
    {
      t := before;
      ghost var next := RowStart(row, gridW);
      for col := 0 to gridW
        invariant next == RowStart(row, gridW) + col
        invariant t == TallyUpTo(b, threshold, gridW, gridH, next)
      {
        t := ScanBlock(currentY, col, row, t, b, next);
        next := next + 1;
      }
    }

    method ScanBlock(currentY: Plane, col: nat, row: nat, before: Tally, ghost b: Blocks, ghost next: nat)
      returns (t: Tally)
      requires col < gridW && BlockKnown(currentY, b, col, row) && next == RowStart(row, gridW) + col
      requires before == TallyUpTo(b, threshold, gridW, gridH, next)
      ensures next < |b.col| && t == TallyUpTo(b, threshold, gridW, gridH, next + 1)
    {
      t := before;
      var blockIdx := row * gridW + col;
      RowStartIsProduct(row, gridW);
      if !isMasked[blockIdx] {
        var blockMAD := BlockMad(currentY, col, row, b);
        t := CountBlock(t, col, row, blockMAD, threshold);
      }
    }

    /** Mean absolute difference of one block. */
    method BlockMad(currentY: Plane, col: nat, row: nat, ghost b: Blocks) returns (mad: real)
      requires BlockKnown(currentY, b, col, row) && col < gridW
      ensures mad == b.delta[RowStart(row, gridW) + col]
    {
      var xStart, yStart := col * blockSize, row * blockSize;
      RowStartIsProduct(row, gridW);
      AtDivMod(col, row, gridW);
      var blockDiffSum := RectDiffSum(currentY, xStart, yStart, blockSize, blockSize);
      MulOrder(0, blockSize, blockSize);
      mad := blockDiffSum as real / (blockSize * blockSize) as real;
    }

    method RectDiffSum(currentY: Plane, xStart: nat, yStart: nat, wd: nat, ht: nat) returns (sum: nat)
      requires |currentY| == lastY.Length == width * height
      requires wd > 0 && xStart + wd <= width && yStart + ht <= height
      ensures sum == RectSad(lastY[..], currentY, width, xStart, yStart, wd, ht)
    {
      sum := 0;
      for y := yStart to yStart + ht
        invariant sum == RectSad(lastY[..], currentY, width, xStart, yStart, wd, y - yStart)
      {
        var rowOffset := y * width;
        AtInBounds(xStart, y, width, height);
        AtInBounds(xStart + wd - 1, y, width, height);
        var rowSum := RowDiffSum(currentY, rowOffset + xStart, wd);
        sum := sum + rowSum;
      }
    }

    method RowDiffSum(currentY: Plane, from: nat, n: nat) returns (sum: nat)
      requires |currentY| == lastY.Length && from + n <= lastY.Length
      ensures sum == RowSad(lastY[..], currentY, from, n)
    {
      sum := 0;
      for idx := from to from + n
        invariant sum == RowSad(lastY[..], currentY, from, idx - from)
      {
        var diff := currentY[idx] as int - lastY[idx] as int;
        if diff < 0 {
          diff := -diff;
        }
        sum := sum + diff;
      }
    }

    /** Builds the detector; its mask is the overlap test of every block against every zone. */
    constructor (cfg: Config)
      ensures Valid() && history == [] && fresh(isMasked) && fresh(lastY)
      ensures width == cfg.frameWidth && height == cfg.frameHeight
      ensures blockSize == if cfg.blockSize <= 0 then 32 else cfg.blockSize
      ensures threshold == cfg.motionThreshold && minActiveBlocks == cfg.minActiveBlocks
      ensures lightingShiftRatio == cfg.lightingShiftRatio
      ensures forall i :: 0 <= i < totalBlocks ==>
                (View().masked[i] <==> HitByZone(cfg.excludeZones, i % gridW, i / gridW, blockSize))
    {
      var bs := cfg.blockSize;
      if bs <= 0 {
        bs := 32;
      }
      var gw := cfg.frameWidth / bs;
      var gh := cfg.frameHeight / bs;
      ProductNat(gw, gh);
      var mask := new bool[gw * gh](_ => false);
      var maskedCount := FillMask(mask, gw, gh, bs, cfg.excludeZones);
      var effective := gw * gh - maskedCount;
      if effective <= 0 {
        effective := 1;
      }
      MaskedAndUnmasked(mask[..]);
      ProductNat(cfg.frameWidth, cfg.frameHeight);
      var plane := new Byte[cfg.frameWidth * cfg.frameHeight];
      width, height, blockSize, gridW, gridH := cfg.frameWidth, cfg.frameHeight, bs, gw, gh;
      totalBlocks, effectiveBlocks := gw * gh, effective;
      threshold, minActiveBlocks := cfg.motionThreshold, cfg.minActiveBlocks;
      lightingShiftRatio := cfg.lightingShiftRatio;
      isMasked, lastY := mask, plane;
      hasLastFrame := false;
      history := [];
    }

    static method FillMask(mask: array<bool>, gw: nat, gh: nat, bs: int, zones: seq<Zone>) returns (maskedCount: nat)
      requires mask.Length == gw * gh && forall i :: 0 <= i < mask.Length ==> !mask[i]
      modifies mask
      ensures forall i :: 0 <= i < mask.Length ==> (mask[i] <==> HitByZone(zones, i % gw, i / gw, bs))
      ensures maskedCount == |MaskedSet(mask[..])|
    {
      maskedCount := 0;
      assert mask[..0] == [];
      RowStartIsProduct(gh, gw);
      for row := 0 to gh
        invariant RowStart(row, gw) <= mask.Length
        invariant MaskedUpTo(mask[..], RowStart(row, gw), gw, bs, zones)
        invariant maskedCount == |MaskedSet(mask[..RowStart(row, gw)])|
      {
        RowFits(row, gw, gh);
        var found := MaskRow(mask, row, gw, bs, zones);
        maskedCount := maskedCount + found;
      }
      assert mask[..mask.Length] == mask[..];
    }

    static method MaskRow(mask: array<bool>, row: nat, gw: nat, bs: int, zones: seq<Zone>) returns (found: nat)
      requires RowStart(row, gw) + gw <= mask.Length
      requires MaskedUpTo(mask[..], RowStart(row, gw), gw, bs, zones)
      modifies mask
      ensures MaskedUpTo(mask[..], RowStart(row, gw) + gw, gw, bs, zones)
      ensures |MaskedSet(mask[..RowStart(row, gw) + gw])| == |MaskedSet(old(mask[..RowStart(row, gw)]))| + found
    {
      RowStartIsProduct(row, gw);
      var base := row * gw;
      found := 0;
      for col := 0 to gw
        invariant MaskedUpTo(mask[..], base + col, gw, bs, zones)
        invariant |MaskedSet(mask[..base + col])| == |MaskedSet(old(mask[..base]))| + found
      {
        var idx := base + col;
        AtDivMod(col, row, gw);
        ghost var before := mask[..idx];
        var hit := HitByAny(col, row, bs, zones);
        if hit {
          mask[idx] := true;
          found := found + 1;
        }
        MaskedStep(before, hit);
        assert mask[..idx + 1] == before + [hit];
      }
    }

    /** The first n entries are the block test, the others are still clear. */
    static ghost predicate MaskedUpTo(mask: seq<bool>, n: int, gw: nat, bs: int, zones: seq<Zone>) {
      && (forall i :: 0 <= i < n && i < |mask| ==> gw != 0 && (mask[i] <==> HitByZone(zones, i % gw, i / gw, bs)))
      && (forall i :: n <= i < |mask| && 0 <= i ==> !mask[i])
    }

    /** Scans the zones until one overlaps the block. */
    static method HitByAny(col: int, row: int, bs: int, zones: seq<Zone>) returns (hit: bool)
      ensures hit <==> HitByZone(zones, col, row, bs)
    {
      hit := false;
      for j := 0 to |zones|
        invariant !hit && forall k :: 0 <= k < j ==> !BlockHit(col, row, bs, zones[k])
      {
        if BlockHit(col, row, bs, zones[j]) {
          hit := true;
          break;
        }
      }
    }
  }

  /**
   * Whatever the zones, overlapping or not: the mask holds the blocks that share a pixel with some zone, and those
   * a zone without pixels still overlaps.
   */
  lemma {:induction false} MaskIsZoneCover(zones: seq<Zone>, col: int, row: int, bs: int)
    requires bs > 0
    ensures HitByZone(zones, col, row, bs) <==>
            || (exists x, y :: InBlock(x, y, col, row, bs) && Covered(zones, x, y))
            || (exists z :: z in zones && !z.NonEmpty() && BlockHit(col, row, bs, z))
  {
    forall z | z in zones && z.NonEmpty()
      ensures BlockHit(col, row, bs, z) <==> exists x, y :: InBlock(x, y, col, row, bs) && z.Contains(x, y)
    {
      HitIffSharedPixel(col, row, bs, z);
    }
    if z :| z in zones && z.NonEmpty() && BlockHit(col, row, bs, z) {
      var x, y :| InBlock(x, y, col, row, bs) && z.Contains(x, y);
      assert Covered(zones, x, y);
    }
  }

  /** The items ask for block i of a detector's grid. */
  ghost predicate Asked(tokens: seq<Token>, g: Grid, i: int)
    requires g.Valid() && g.gridW != 0
  {
    var col, row := i % g.gridW, i / g.gridW;
    exists t :: t in tokens && (BlockMeant(t, col, row, g.width, g.height, g.bs)
                                || RunsThrough(t, col, row, g.width, g.height, g.bs))
  }

  lemma {:induction false} MaskIsAsked(tokens: seq<Token>, g: Grid, i: int)
    requires g.Valid() && 0 <= i < g.Total()
    ensures g.gridW != 0
    ensures HitByZone(ZonesOf(tokens, g.width, g.height), i % g.gridW, i / g.gridW, g.bs) <==> Asked(tokens, g, i)
  {
    BlockIndex(g, i);
    ListMasks(tokens, i % g.gridW, i / g.gridW, g.width, g.height, g.bs);
  }

  /** Start-up: the configured items are parsed and the detector is built from their zones. */
  method BuildDetector(tokens: seq<Token>, cfg: Config) returns (d: MacroblockDetector)
    ensures fresh(d) && d.Valid() && d.history == []
    ensures d.width == cfg.frameWidth && d.height == cfg.frameHeight
    ensures forall i :: 0 <= i < d.totalBlocks ==>
              d.View().gridW != 0 && (d.View().masked[i] <==> Asked(tokens, d.View(), i))
  {
    var zones := ParseExcludeZones(tokens, cfg.frameWidth, cfg.frameHeight);
    d := new MacroblockDetector(cfg.(excludeZones := zones));
    forall i | 0 <= i < d.totalBlocks
      ensures d.View().gridW != 0 && (d.View().masked[i] <==> Asked(tokens, d.View(), i))
    {
      MaskIsAsked(tokens, d.View(), i);
    }
  }

  ghost function MaskedSet(m: seq<bool>): set<int> {
    set i | 0 <= i < |m| && m[i]
  }

  lemma MaskedStep(m: seq<bool>, hit: bool)
    ensures |MaskedSet(m + [hit])| == |MaskedSet(m)| + if hit then 1 else 0
  {
    var n := m + [hit];
    assert MaskedSet(n) == if hit then MaskedSet(m) + {|m|} else MaskedSet(m);
  }

  lemma MaskedAndUnmasked(m: seq<bool>)
    ensures |MaskedSet(m)| + |set i | 0 <= i < |m| && !m[i]| == |m|
  {
    var free := set i | 0 <= i < |m| && !m[i];
    assert MaskedSet(m) + free == Range(|m|);
  }
}
