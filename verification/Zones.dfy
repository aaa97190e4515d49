/** Exclusion zones: parsed tokens, normalised tuples and the block test that turns them into a mask. */
module Zones {
  import opened Common

  /** A half-open pixel rectangle. */
  datatype Zone = Zone(x1: int, y1: int, x2: int, y2: int) {
    predicate Contains(x: int, y: int) {
      x1 <= x < x2 && y1 <= y < y2
    }

    predicate NonEmpty() {
      x1 < x2 && y1 < y2
    }
  }

  /** One semicolon-separated item, after its text has been trimmed, lowered and classified. */
  datatype Token =
    | Blank
    | TopLeftClock
    | TopRightClock
    | BottomLeftClock
    | BottomRightClock
    | Tuple(x1: int, y1: int, x2: int, y2: int)
    | Unrecognised
  {
    /** The pixels the item stands for, corners of a tuple in either order. */
    predicate Denotes(x: int, y: int, w: int, h: int) {
      match this
      case Blank => false
      case Unrecognised => false
      case TopLeftClock => 0 <= x < 480 && 0 <= y < 96
      case TopRightClock => w - 448 <= x < w && 0 <= y < 96
      case BottomLeftClock => 0 <= x < 480 && h - 96 <= y < h
      case BottomRightClock => w - 480 <= x < w && h - 96 <= y < h
      case Tuple(a, b, c, d) => (a <= x < c || c <= x < a) && (b <= y < d || d <= y < b)
    }
  }

  /** The zone a numeric tuple is turned into: ordered, then clamped to the frame. */
  function Normalised(t: Token, w: int, h: int): Zone
    requires t.Tuple?
  {
    Zone(Max(Min(t.x1, t.x2), 0), Max(Min(t.y1, t.y2), 0), Min(Max(t.x1, t.x2), w), Min(Max(t.y1, t.y2), h))
  }

  /** Orders the corners of a tuple and clamps them, in place. */
  method NormaliseTuple(t: Token, w: int, h: int) returns (z: Zone)
    requires t.Tuple?
    ensures z == Normalised(t, w, h)
    ensures forall x, y :: 0 <= x < w && 0 <= y < h ==> (z.Contains(x, y) <==> t.Denotes(x, y, w, h))
    ensures forall x, y :: z.Contains(x, y) ==> 0 <= x < w && 0 <= y < h
  {
    var x1, y1, x2, y2 := t.x1, t.y1, t.x2, t.y2;
    if x1 > x2 {
      x1, x2 := x2, x1;
    }
    if y1 > y2 {
      y1, y2 := y2, y1;
    }
    if x1 < 0 {
      x1 := 0;
    }
    if y1 < 0 {
      y1 := 0;
    }
    if x2 > w {
      x2 := w;
    }
    if y2 > h {
      y2 := h;
    }
    z := Zone(x1, y1, x2, y2);
  }

  /** Frame pixel (x, y) lies in one of the zones. */
  ghost predicate Covered(zones: seq<Zone>, x: int, y: int) {
    exists z :: z in zones && z.Contains(x, y)
  }

  /** Frame pixel (x, y) is meant by one of the items. */
  ghost predicate Meant(tokens: seq<Token>, x: int, y: int, w: int, h: int) {
    exists t :: t in tokens && t.Denotes(x, y, w, h)
  }

  /** The zone an item stands for, if any. */
  function OwnZones(t: Token, w: int, h: int): seq<Zone> {
    match t
    case Blank => []
    case Unrecognised => []
    case TopLeftClock => [Zone(0, 0, 480, 96)]
    case TopRightClock => [Zone(w - 448, 0, w, 96)]
    case BottomLeftClock => [Zone(0, h - 96, 480, h)]
    case BottomRightClock => [Zone(w - 480, h - 96, w, h)]
    case Tuple(_, _, _, _) => [Normalised(t, w, h)]
  }

  /** The zones the items stand for, in their order. */
  function ZonesOf(tokens: seq<Token>, w: int, h: int): seq<Zone> {
    if tokens == [] then [] else ZonesOf(tokens[..|tokens| - 1], w, h) + OwnZones(tokens[|tokens| - 1], w, h)
  }

  method ParseExcludeZones(tokens: seq<Token>, w: int, h: int) returns (zones: seq<Zone>)
    ensures zones == ZonesOf(tokens, w, h)
    ensures forall x, y :: 0 <= x < w && 0 <= y < h ==> (Covered(zones, x, y) <==> Meant(tokens, x, y, w, h))
  {
    zones := [];
    for i := 0 to |tokens|
      invariant zones == ZonesOf(tokens[..i], w, h)
      invariant forall x, y :: 0 <= x < w && 0 <= y < h ==> (Covered(zones, x, y) <==> Meant(tokens[..i], x, y, w, h))
    {
      ghost var before := zones;
      match tokens[i] {
        case Blank =>
        case Unrecognised =>
        case TopLeftClock => zones := zones + [Zone(0, 0, 480, 96)];
        case TopRightClock => zones := zones + [Zone(w - 448, 0, w, 96)];
        case BottomLeftClock => zones := zones + [Zone(0, h - 96, 480, h)];
        case BottomRightClock => zones := zones + [Zone(w - 480, h - 96, w, h)];
        case Tuple(_, _, _, _) =>
          var z := NormaliseTuple(tokens[i], w, h);
          zones := zones + [z];
      }
      assert tokens[..i + 1] == tokens[..i] + [tokens[i]];
      forall x, y | 0 <= x < w && 0 <= y < h
        ensures Covered(zones, x, y) <==> Meant(tokens[..i + 1], x, y, w, h)
      {
        CoverStep(before, zones, tokens[..i], tokens[i], x, y, w, h);
      }
    }
    assert tokens[..|tokens|] == tokens;
  }

  /** What a list of items is turned into, item by item: the four presets and the tuples, nothing for anything else. */
  lemma {:induction false} ZonesItemByItem(tokens: seq<Token>, t: Token, w: int, h: int)
    ensures ZonesOf(tokens + [t], w, h) == ZonesOf(tokens, w, h) +
              if t == TopLeftClock then [Zone(0, 0, 480, 96)]
              else if t == TopRightClock then [Zone(w - 448, 0, w, 96)]
              else if t == BottomLeftClock then [Zone(0, h - 96, 480, h)]
              else if t == BottomRightClock then [Zone(w - 480, h - 96, w, h)]
              else if t.Tuple? then [Normalised(t, w, h)] else []
  {
    assert (tokens + [t])[..|tokens|] == tokens;
  }

  /** One more item adds exactly its own pixels. */
  lemma CoverStep(before: seq<Zone>, after: seq<Zone>, tokens: seq<Token>, t: Token, x: int, y: int, w: int, h: int)
    requires Covered(before, x, y) <==> Meant(tokens, x, y, w, h)
    requires
      || (after == before && !t.Denotes(x, y, w, h))
      || (|after| == |before| + 1 && after[..|before|] == before
          && (after[|before|].Contains(x, y) <==> t.Denotes(x, y, w, h)))
    ensures Covered(after, x, y) <==> Meant(tokens + [t], x, y, w, h)
  {
    assert forall u :: u in tokens + [t] <==> u in tokens || u == t;
    if after != before {
      assert after == before + [after[|before|]];
    }
  }

  // ---------------------------------------------------------------- the mask

  /** The axis-aligned overlap test between block (col, row) and a zone. */
  predicate BlockHit(col: int, row: int, bs: int, z: Zone) {
    col * bs < z.x2 && col * bs + bs > z.x1 && row * bs < z.y2 && row * bs + bs > z.y1
  }

  predicate InBlock(x: int, y: int, col: int, row: int, bs: int) {
    col * bs <= x < col * bs + bs && row * bs <= y < row * bs + bs
  }

  /** For a non-empty zone the overlap test says exactly whether block and zone share a pixel. */
  lemma {:induction false} HitIffSharedPixel(col: int, row: int, bs: int, z: Zone)
    requires bs > 0 && z.NonEmpty()
    ensures BlockHit(col, row, bs, z) <==> exists x, y :: InBlock(x, y, col, row, bs) && z.Contains(x, y)
  {
    if BlockHit(col, row, bs, z) {
      var x, y := Max(col * bs, z.x1), Max(row * bs, z.y1);
      assert InBlock(x, y, col, row, bs) && z.Contains(x, y);
    }
  }

  /** Whether the span lo..hi, once clamped to a frame of the given size, passes the overlap test of some block. */
  predicate AxisTouches(lo: int, hi: int, size: int, bs: int)
    requires bs > 0
  {
    var span := size / bs * bs;
    if lo < hi then 0 < hi && lo < span && 0 < span
    else 0 < lo < span && lo % bs != 0
  }

  /** A tuple without area that runs strictly through the inside of a block. */
  predicate StrayLine(t: Token, w: int, h: int, bs: int)
    requires t.Tuple? && bs > 0
  {
    && (t.x1 == t.x2 || t.y1 == t.y2)
    && AxisTouches(Min(t.x1, t.x2), Max(t.x1, t.x2), w, bs)
    && AxisTouches(Min(t.y1, t.y2), Max(t.y1, t.y2), h, bs)
  }

  predicate InGrid(col: int, row: int, w: int, h: int, bs: int)
    requires bs > 0
  {
    0 <= col < w / bs && 0 <= row < h / bs
  }

  /** Block (col, row) has a pixel the item stands for. */
  ghost predicate BlockMeant(t: Token, col: int, row: int, w: int, h: int, bs: int) {
    exists x, y :: InBlock(x, y, col, row, bs) && t.Denotes(x, y, w, h)
  }

  /** The mask computed from this tuple is the mask its pixels ask for, on every block of the grid. */
  ghost predicate MaskExact(t: Token, w: int, h: int, bs: int)
    requires t.Tuple? && bs > 0
  {
    forall col, row :: InGrid(col, row, w, h, bs) ==>
      (BlockHit(col, row, bs, Normalised(t, w, h)) <==> BlockMeant(t, col, row, w, h, bs))
  }

  /** One axis of the overlap test after clamping. */
  predicate AxisHit(b: int, lo: int, hi: int, size: int, bs: int) {
    b * bs < Min(hi, size) && b * bs + bs > Max(lo, 0)
  }

  lemma GridInFrame(b: int, size: int, bs: int)
    requires bs > 0 && 0 <= b < size / bs
    ensures 0 <= b * bs && b * bs + bs <= size / bs * bs <= size
  {
    assert (b + 1) * bs <= size / bs * bs;
  }

  lemma TouchedBlock(lo: int, hi: int, size: int, bs: int) returns (b: int)
    requires bs > 0 && lo <= hi && size >= 0 && AxisTouches(lo, hi, size, bs)
    ensures 0 <= b < size / bs && AxisHit(b, lo, hi, size, bs)
  {
    var v := Max(lo, 0);
    b := v / bs;
    DivStep(v, bs);
    DivStep(size, bs);
    MulOrder(size / bs, b, bs);
  }

  lemma HitTouches(b: int, lo: int, hi: int, size: int, bs: int)
    requires bs > 0 && lo <= hi && 0 <= b < size / bs && AxisHit(b, lo, hi, size, bs)
    ensures AxisTouches(lo, hi, size, bs)
  {
    GridInFrame(b, size, bs);
    DivStep(lo, bs);
    MulOrder(lo / bs, b, bs);
    MulOrder(b, lo / bs, bs);
  }

  /**
   * From the text of a tuple to the mask: exact for every tuple and every block, except that a tuple
   * without area still masks the blocks it runs through.
   */
  lemma {:induction false} TupleMasksExactly(t: Token, w: int, h: int, bs: int)
    requires t.Tuple? && bs > 0 && w >= 0 && h >= 0
    ensures MaskExact(t, w, h, bs) <==> !StrayLine(t, w, h, bs)
  {
    var xl, xh, yl, yh := Min(t.x1, t.x2), Max(t.x1, t.x2), Min(t.y1, t.y2), Max(t.y1, t.y2);
    if StrayLine(t, w, h, bs) {
      var col := TouchedBlock(xl, xh, w, bs);
      var row := TouchedBlock(yl, yh, h, bs);
      assert InGrid(col, row, w, h, bs) && BlockHit(col, row, bs, Normalised(t, w, h));
      assert !BlockMeant(t, col, row, w, h, bs);
    } else {
      forall col, row | InGrid(col, row, w, h, bs)
        ensures BlockHit(col, row, bs, Normalised(t, w, h)) <==> BlockMeant(t, col, row, w, h, bs)
      {
        TupleBlock(t, col, row, w, h, bs);
      }
    }
  }

  lemma TupleBlock(t: Token, col: int, row: int, w: int, h: int, bs: int)
    requires t.Tuple? && bs > 0 && w >= 0 && h >= 0 && InGrid(col, row, w, h, bs)
    requires !StrayLine(t, w, h, bs)
    ensures BlockHit(col, row, bs, Normalised(t, w, h)) <==> BlockMeant(t, col, row, w, h, bs)
  {
    var xl, xh, yl, yh := Min(t.x1, t.x2), Max(t.x1, t.x2), Min(t.y1, t.y2), Max(t.y1, t.y2);
    GridInFrame(col, w, bs);
    GridInFrame(row, h, bs);
    if BlockHit(col, row, bs, Normalised(t, w, h)) {
      assert AxisHit(col, xl, xh, w, bs) && AxisHit(row, yl, yh, h, bs);
      HitTouches(col, xl, xh, w, bs);
      HitTouches(row, yl, yh, h, bs);
      var x, y := Max(col * bs, xl), Max(row * bs, yl);
      assert InBlock(x, y, col, row, bs) && t.Denotes(x, y, w, h);
    }
  }

  /** The exception is real: the tuple 10,10,10,20 has no pixel, yet it masks the first 32-pixel block. */
  lemma StrayLineExample()
    ensures var t := Tuple(10, 10, 10, 20);
            && BlockHit(0, 0, 32, Normalised(t, 1920, 1080))
            && forall x, y :: !t.Denotes(x, y, 1920, 1080)
  {
  }

  // ---------------------------------------------------------------- the mask of a whole list

  /** Some zone overlaps block (col, row). */
  ghost predicate HitByZone(zones: seq<Zone>, col: int, row: int, bs: int) {
    exists z :: z in zones && BlockHit(col, row, bs, z)
  }

  /** The item is a tuple without area that runs through block (col, row). */
  predicate RunsThrough(t: Token, col: int, row: int, w: int, h: int, bs: int)
    requires bs > 0
  {
    t.Tuple? && StrayLine(t, w, h, bs) && BlockHit(col, row, bs, Normalised(t, w, h))
  }

  lemma {:induction false} ItemMasks(t: Token, col: int, row: int, w: int, h: int, bs: int)
    requires bs > 0 && w >= 0 && h >= 0 && InGrid(col, row, w, h, bs)
    ensures HitByZone(OwnZones(t, w, h), col, row, bs) <==>
            BlockMeant(t, col, row, w, h, bs) || RunsThrough(t, col, row, w, h, bs)
  {
    var own := OwnZones(t, w, h);
    if t.Tuple? {
      assert own[0] in own;
      if StrayLine(t, w, h, bs) {
        assert !BlockMeant(t, col, row, w, h, bs);
      } else {
        TupleBlock(t, col, row, w, h, bs);
      }
    } else if own != [] {
      assert own[0] in own;
      PresetMasks(t, col, row, w, h, bs);
    }
  }

  lemma {:induction false} PresetMasks(t: Token, col: int, row: int, w: int, h: int, bs: int)
    requires bs > 0 && !t.Tuple? && OwnZones(t, w, h) != []
    ensures BlockHit(col, row, bs, OwnZones(t, w, h)[0]) <==> BlockMeant(t, col, row, w, h, bs)
  {
    var z := OwnZones(t, w, h)[0];
    assert forall x, y :: z.Contains(x, y) <==> t.Denotes(x, y, w, h);
    HitIffSharedPixel(col, row, bs, z);
    if x, y :| InBlock(x, y, col, row, bs) && z.Contains(x, y) {
      assert t.Denotes(x, y, w, h);
    }
  }

  /** A configured list masks the blocks its items have pixels in, and those its lines without area run through. */
  lemma {:induction false} ListMasks(tokens: seq<Token>, col: int, row: int, w: int, h: int, bs: int)
    requires bs > 0 && w >= 0 && h >= 0 && InGrid(col, row, w, h, bs)
    ensures HitByZone(ZonesOf(tokens, w, h), col, row, bs) <==>
            exists t :: t in tokens && (BlockMeant(t, col, row, w, h, bs) || RunsThrough(t, col, row, w, h, bs))
  {
    if tokens != [] {
      var init, last := tokens[..|tokens| - 1], tokens[|tokens| - 1];
      ListMasks(init, col, row, w, h, bs);
      ItemMasks(last, col, row, w, h, bs);
      assert forall t :: t in tokens <==> t in init || t == last;
      assert forall z :: z in ZonesOf(tokens, w, h) <==> z in ZonesOf(init, w, h) || z in OwnZones(last, w, h);
    }
  }

  /** On every block of the grid the mask of the list is the one the pixels of its items ask for. */
  ghost predicate ListExact(tokens: seq<Token>, w: int, h: int, bs: int)
    requires bs > 0
  {
    forall col, row :: InGrid(col, row, w, h, bs) ==>
      (HitByZone(ZonesOf(tokens, w, h), col, row, bs) <==> exists t :: t in tokens && BlockMeant(t, col, row, w, h, bs))
  }

  /**
   * From a whole list to the mask: exact if and only if every line without area runs only through blocks that other
   * items have pixels in, so always when there is no such line.
   */
  lemma {:induction false} ListMasksExactly(tokens: seq<Token>, w: int, h: int, bs: int)
    requires bs > 0 && w >= 0 && h >= 0
    ensures ListExact(tokens, w, h, bs) <==>
            forall t, col, row {:trigger RunsThrough(t, col, row, w, h, bs)} ::
              t in tokens && InGrid(col, row, w, h, bs) && RunsThrough(t, col, row, w, h, bs) ==>
                exists u :: u in tokens && BlockMeant(u, col, row, w, h, bs)
    ensures (forall t :: t in tokens && t.Tuple? ==> !StrayLine(t, w, h, bs)) ==> ListExact(tokens, w, h, bs)
  {
    forall col, row | InGrid(col, row, w, h, bs)
      ensures HitByZone(ZonesOf(tokens, w, h), col, row, bs) <==>
              exists t :: t in tokens && (BlockMeant(t, col, row, w, h, bs) || RunsThrough(t, col, row, w, h, bs))
    {
      ListMasks(tokens, col, row, w, h, bs);
    }
  }
}
