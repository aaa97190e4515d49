/** The live snapshot: the cached picture, the stored raw frame and the overlay burnt into a copy of it. */
module Snapshot {
  import opened Common
  import opened Zones

  // ------------------------------------------------------------ what the overlay looks like

  const GRID := 200

  predicate OnGridLine(v: int) {
    v > 0 && v % GRID == 0
  }

  /** The pixel lies on a coordinate line. */
  predicate OnGrid(x: int, y: int) {
    OnGridLine(x) || OnGridLine(y)
  }

  /** Within four pixels of an end of the span lo..hi, cut off at the frame. */
  predicate NearEnd(v: int, lo: int, hi: int, size: int) {
    lo <= v < lo + 4 || Min(hi, size) - 4 <= v < Min(hi, size)
  }

  predicate Within(v: int, lo: int, hi: int, size: int) {
    lo <= v < Min(hi, size)
  }

  predicate OnBorder(z: Zone, x: int, y: int, w: int, h: int) {
    || (Within(x, z.x1, z.x2, w) && NearEnd(y, z.y1, z.y2, h))
    || (Within(y, z.y1, z.y2, h) && NearEnd(x, z.x1, z.x2, w))
  }

  predicate OnDiagonal(x: int, y: int) {
    (x + y) % 24 == 0 || (x - y) % 24 == 0
  }

  predicate OnHatch(z: Zone, x: int, y: int, w: int, h: int) {
    z.x1 + 4 <= x < Min(z.x2, w) - 4 && z.y1 + 4 <= y < Min(z.y2, h) - 4 && OnDiagonal(x, y)
  }

  /** The pixel is painted for this zone. */
  predicate Ink(z: Zone, x: int, y: int, w: int, h: int) {
    OnBorder(z, x, y, w, h) || OnHatch(z, x, y, w, h)
  }

  /** A pixel of value v after one zone is drawn. */
  function ZonePixel(z: Zone, x: int, y: int, w: int, h: int, v: Byte): Byte {
    if OnHatch(z, x, y, w, h) then 220 else if OnBorder(z, x, y, w, h) then 255 else v
  }

  /** A pixel of value v after the zones are drawn in their order. */
  function ZonesPixel(zones: seq<Zone>, x: int, y: int, w: int, h: int, v: Byte): Byte {
    if zones == [] then v
    else ZonePixel(zones[|zones| - 1], x, y, w, h, ZonesPixel(zones[..|zones| - 1], x, y, w, h, v))
  }

  function OverlayPixel(zones: seq<Zone>, x: int, y: int, w: int, h: int, v: Byte): Byte {
    ZonesPixel(zones, x, y, w, h, if OnGrid(x, y) then 240 else v)
  }

  /** The pixel carries some ink of the overlay. */
  ghost predicate Marked(zones: seq<Zone>, x: int, y: int, w: int, h: int) {
    OnGrid(x, y) || exists z :: z in zones && Ink(z, x, y, w, h)
  }

  lemma {:induction false} ZonesPixelCases(zones: seq<Zone>, x: int, y: int, w: int, h: int, v: Byte, u: Byte)
    ensures (forall z :: z in zones ==> !Ink(z, x, y, w, h)) ==> ZonesPixel(zones, x, y, w, h, v) == v
    ensures (exists z :: z in zones && Ink(z, x, y, w, h)) ==>
              ZonesPixel(zones, x, y, w, h, v) == ZonesPixel(zones, x, y, w, h, u) >= 220
  {
    if zones != [] {
      var init, last := zones[..|zones| - 1], zones[|zones| - 1];
      ZonesPixelCases(init, x, y, w, h, v, u);
      assert zones == init + [last];
      assert last in zones && forall z :: z in init ==> z in zones;
    }
  }

  /** Ink is bright and does not depend on the picture below; everywhere else the picture shows through. */
  lemma {:induction false} InkOrPicture(zones: seq<Zone>, x: int, y: int, w: int, h: int, v: Byte, u: Byte)
    ensures Marked(zones, x, y, w, h) ==>
              OverlayPixel(zones, x, y, w, h, v) == OverlayPixel(zones, x, y, w, h, u) >= 220
    ensures !Marked(zones, x, y, w, h) ==> OverlayPixel(zones, x, y, w, h, v) == v
  {
    ZonesPixelCases(zones, x, y, w, h, if OnGrid(x, y) then 240 else v, if OnGrid(x, y) then 240 else u);
  }

  /**
   * The three inks by their numbers: 240 on the columns and rows at positive multiples of 200, and on top of it, for
   * the zone drawn last, 255 on the four pixels along each edge and 220 on the diagonals every 24 pixels inside.
   */
  lemma {:induction false} InksByNumber(zones: seq<Zone>, z: Zone, x: int, y: int, w: int, h: int, v: Byte)
    requires 0 <= x < w && 0 <= y < h && 0 <= z.x1 && 0 <= z.y1
    ensures (x > 0 && x % 200 == 0) || (y > 0 && y % 200 == 0) ==> OverlayPixel([], x, y, w, h, v) == 240
    ensures !((x > 0 && x % 200 == 0) || (y > 0 && y % 200 == 0)) ==> OverlayPixel([], x, y, w, h, v) == v
    ensures var x2, y2 := if z.x2 < w then z.x2 else w, if z.y2 < h then z.y2 else h;
            var inside := z.x1 + 4 <= x < x2 - 4 && z.y1 + 4 <= y < y2 - 4;
            var edge := || (z.x1 <= x < x2 && (z.y1 <= y < z.y1 + 4 || y2 - 4 <= y < y2))
                        || (z.y1 <= y < y2 && (z.x1 <= x < z.x1 + 4 || x2 - 4 <= x < x2));
            var below := OverlayPixel(zones, x, y, w, h, v);
            OverlayPixel(zones + [z], x, y, w, h, v) ==
              if edge then 255
              else if inside && ((x + y) % 24 == 0 || (x - y) % 24 == 0) then 220 else below
  {
    assert (zones + [z])[..|zones|] == zones;
  }

  /** Drawing the overlay again changes nothing. */
  lemma {:induction false} OverlayIsIdempotent(zones: seq<Zone>, x: int, y: int, w: int, h: int, v: Byte)
    ensures var once := OverlayPixel(zones, x, y, w, h, v);
            OverlayPixel(zones, x, y, w, h, once) == once
  {
    InkOrPicture(zones, x, y, w, h, v, OverlayPixel(zones, x, y, w, h, v));
  }

  // ------------------------------------------------------------ ink stays inside its zone

  /** The four-pixel edges of the span, cut off at the frame, do not leave it. */
  predicate AxisFits(lo: int, hi: int, size: int) {
    if lo < Min(hi, size) then Min(hi, size) - lo >= 4 || (lo == 0 && size <= hi)
    else size <= lo && Min(hi, size) <= 0
  }

  predicate Fits(z: Zone, w: int, h: int) {
    && (z.x1 < Min(z.x2, w) ==> AxisFits(z.y1, z.y2, h))
    && (z.y1 < Min(z.y2, h) ==> AxisFits(z.x1, z.x2, w))
  }

  ghost predicate InkInside(z: Zone, w: int, h: int) {
    forall x, y :: 0 <= x < w && 0 <= y < h && Ink(z, x, y, w, h) ==> z.Contains(x, y)
  }

  lemma SpanSpills(lo: int, hi: int, size: int) returns (v: int)
    requires 0 <= lo && 0 <= size && !AxisFits(lo, hi, size)
    ensures 0 <= v < size && NearEnd(v, lo, hi, size) && !(lo <= v < hi)
  {
    var end := Min(hi, size);
    if lo < end {
      v := if hi < size then hi else lo - 1;
    } else {
      v := if lo < size then lo else end - 1;
    }
  }

  /** No pixel outside a zone is painted for it exactly when both spans leave room for the border. */
  lemma {:induction false} InkInsideIffFits(z: Zone, w: int, h: int)
    requires 0 <= z.x1 && 0 <= z.y1 && 0 <= w && 0 <= h
    ensures InkInside(z, w, h) <==> Fits(z, w, h)
  {
    if z.x1 < Min(z.x2, w) && !AxisFits(z.y1, z.y2, h) {
      var y := SpanSpills(z.y1, z.y2, h);
      assert Ink(z, z.x1, y, w, h) && !z.Contains(z.x1, y);
    }
    if z.y1 < Min(z.y2, h) && !AxisFits(z.x1, z.x2, w) {
      var x := SpanSpills(z.x1, z.x2, w);
      assert Ink(z, x, z.y1, w, h) && !z.Contains(x, z.y1);
    }
  }

  /** The exception is real: a tuple right of the frame masks nothing, yet the overlay paints the right edge for it. */
  lemma OffFrameTupleIsPainted()
    ensures var t := Tuple(5000, 100, 6000, 200);
            && Ink(Normalised(t, 1920, 1080), 1919, 150, 1920, 1080)
            && forall x, y :: !Normalised(t, 1920, 1080).Contains(x, y)
  {
  }

  /** With zones that fit, a pixel off the coordinate lines and outside every zone keeps its value. */
  lemma {:induction false} OutsideUnchanged(zones: seq<Zone>, x: int, y: int, w: int, h: int, v: Byte)
    requires forall z :: z in zones ==> 0 <= z.x1 && 0 <= z.y1 && Fits(z, w, h)
    requires 0 <= x < w && 0 <= y < h && !OnGrid(x, y) && !Covered(zones, x, y)
    ensures OverlayPixel(zones, x, y, w, h, v) == v
  {
    forall z | z in zones
      ensures !Ink(z, x, y, w, h)
    {
      InkInsideIffFits(z, w, h);
    }
    InkOrPicture(zones, x, y, w, h, v, v);
  }

  /** On frames at least as large as the clock presets, the parser yields only zones the painter can take. */
  lemma {:induction false} ParsedZonesArePaintable(tokens: seq<Token>, w: int, h: int)
    requires w >= 480 && h >= 96
    ensures forall z :: z in ZonesOf(tokens, w, h) ==> 0 <= z.x1 && 0 <= z.y1
  {
    if tokens != [] {
      ParsedZonesArePaintable(tokens[..|tokens| - 1], w, h);
    }
  }

  // ------------------------------------------------------------ painting

  /** Luminance sample (x, y) of a frame buffer. */
  function Sample(s: seq<Byte>, x: int, y: int, w: int): Byte {
    var i := At(x, y, w);
    if 0 <= i < |s| then s[i] else 0
  }

  /** Only the luminance plane has changed. */
  ghost predicate SameChroma(a: seq<Byte>, b: seq<Byte>, ySize: int)
    requires 0 <= ySize
  {
    |a| == |b| && forall i :: ySize <= i < |a| ==> a[i] == b[i]
  }

  method Put(raw: array<Byte>, x: int, y: int, w: int, h: int, ySize: nat, v: Byte)
    requires 0 <= x < w && 0 <= y < h && w * h == ySize <= raw.Length
    modifies raw
    ensures SameChroma(old(raw[..]), raw[..], ySize)
    ensures forall p, q :: 0 <= p < w && 0 <= q < h ==>
              Sample(raw[..], p, q, w) == if p == x && q == y then v else Sample(old(raw[..]), p, q, w)
  {
    AtInBounds(x, y, w, h);
    raw[At(x, y, w)] := v;
    forall p, q | 0 <= p < w && 0 <= q < h
      ensures Sample(raw[..], p, q, w) == if p == x && q == y then v else Sample(old(raw[..]), p, q, w)
    {
      AtInjective(x, y, p, q, w);
    }
  }

  /** Column x, top to bottom. */
  method PaintColumn(raw: array<Byte>, x: int, w: int, h: int, ySize: nat, v: Byte)
    requires 0 <= x < w && 0 <= h && w * h == ySize <= raw.Length
    modifies raw
    ensures SameChroma(old(raw[..]), raw[..], ySize)
    ensures forall p, q :: 0 <= p < w && 0 <= q < h ==>
              Sample(raw[..], p, q, w) == if p == x then v else Sample(old(raw[..]), p, q, w)
  {
    var y := 0;
    while y < h
      invariant 0 <= y <= h && SameChroma(old(raw[..]), raw[..], ySize)
      invariant forall p, q :: 0 <= p < w && 0 <= q < h ==>
                  Sample(raw[..], p, q, w) == if p == x && q < y then v else Sample(old(raw[..]), p, q, w)
    {
      Put(raw, x, y, w, h, ySize, v);
      y := y + 1;
    }
  }

  /** Row y, left to right. */
  method PaintRow(raw: array<Byte>, y: int, w: int, h: int, ySize: nat, v: Byte)
    requires 0 <= y < h && 0 <= w && w * h == ySize <= raw.Length
    modifies raw
    ensures SameChroma(old(raw[..]), raw[..], ySize)
    ensures forall p, q :: 0 <= p < w && 0 <= q < h ==>
              Sample(raw[..], p, q, w) == if q == y then v else Sample(old(raw[..]), p, q, w)
  {
    var x := 0;
    while x < w
      invariant 0 <= x <= w && SameChroma(old(raw[..]), raw[..], ySize)
      invariant forall p, q :: 0 <= p < w && 0 <= q < h ==>
                  Sample(raw[..], p, q, w) == if q == y && p < x then v else Sample(old(raw[..]), p, q, w)
    {
      Put(raw, x, y, w, h, ySize, v);
      x := x + 1;
    }
  }

  /** The coordinate lines. */
  method DrawGrid(raw: array<Byte>, w: int, h: int, ySize: nat)
    requires 0 <= w && 0 <= h && w * h == ySize <= raw.Length
    modifies raw
    ensures SameChroma(old(raw[..]), raw[..], ySize)
    ensures forall p, q :: 0 <= p < w && 0 <= q < h ==>
              Sample(raw[..], p, q, w) == if OnGrid(p, q) then 240 else Sample(old(raw[..]), p, q, w)
  {
    DrawColumns(raw, w, h, ySize);
    DrawRows(raw, w, h, ySize);
  }

  method DrawColumns(raw: array<Byte>, w: int, h: int, ySize: nat)
    requires 0 <= w && 0 <= h && w * h == ySize <= raw.Length
    modifies raw
    ensures SameChroma(old(raw[..]), raw[..], ySize)
    ensures forall p, q :: 0 <= p < w && 0 <= q < h ==>
              Sample(raw[..], p, q, w) == if OnGridLine(p) then 240 else Sample(old(raw[..]), p, q, w)
  {
    var x := GRID;
    while x < w
      invariant x > 0 && x % GRID == 0 && SameChroma(old(raw[..]), raw[..], ySize)
      invariant forall p, q :: 0 <= p < w && 0 <= q < h ==>
                  Sample(raw[..], p, q, w) == if OnGridLine(p) && p < x then 240 else Sample(old(raw[..]), p, q, w)
    {
      PaintColumn(raw, x, w, h, ySize, 240);
      x := x + GRID;
    }
  }

  method DrawRows(raw: array<Byte>, w: int, h: int, ySize: nat)
    requires 0 <= w && 0 <= h && w * h == ySize <= raw.Length
    modifies raw
    ensures SameChroma(old(raw[..]), raw[..], ySize)
    ensures forall p, q :: 0 <= p < w && 0 <= q < h ==>
              Sample(raw[..], p, q, w) == if OnGridLine(q) then 240 else Sample(old(raw[..]), p, q, w)
  {
    var y := GRID;
    while y < h
      invariant y > 0 && y % GRID == 0 && SameChroma(old(raw[..]), raw[..], ySize)
      invariant forall p, q :: 0 <= p < w && 0 <= q < h ==>
                  Sample(raw[..], p, q, w) == if OnGridLine(q) && q < y then 240 else Sample(old(raw[..]), p, q, w)
    {
      PaintRow(raw, y, w, h, ySize, 240);
      y := y + GRID;
    }
  }

  /** One pixel wide, the two horizontal edges at distance t: rows y1 + t and y2 - 1 - t, where the frame has them. */
  method PaintAcross(raw: array<Byte>, x1: int, x2: int, top: int, bottom: int, w: int, h: int, ySize: nat)
    requires 0 <= x1 && x2 <= w && 0 <= top && bottom < h && 0 <= h && w * h == ySize <= raw.Length
    modifies raw
    ensures SameChroma(old(raw[..]), raw[..], ySize)
    ensures forall p, q :: 0 <= p < w && 0 <= q < h ==>
              Sample(raw[..], p, q, w) ==
                if x1 <= p < x2 && (q == top || q == bottom) then 255 else Sample(old(raw[..]), p, q, w)
  {
    var x := x1;
    while x < x2
      invariant x1 <= x && SameChroma(old(raw[..]), raw[..], ySize)
      invariant forall p, q :: 0 <= p < w && 0 <= q < h ==>
                  Sample(raw[..], p, q, w) ==
                    if x1 <= p < x && p < x2 && (q == top || q == bottom) then 255 else Sample(old(raw[..]), p, q, w)
    {
      if top < h {
        Put(raw, x, top, w, h, ySize, 255);
      }
      if bottom >= 0 && bottom < h {
        Put(raw, x, bottom, w, h, ySize, 255);
      }
      x := x + 1;
    }
  }

  /** The two vertical edges at distance t. */
  method PaintDown(raw: array<Byte>, y1: int, y2: int, left: int, right: int, w: int, h: int, ySize: nat)
    requires 0 <= y1 && y2 <= h && 0 <= left && right < w && 0 <= w && w * h == ySize <= raw.Length
    modifies raw
    ensures SameChroma(old(raw[..]), raw[..], ySize)
    ensures forall p, q :: 0 <= p < w && 0 <= q < h ==>
              Sample(raw[..], p, q, w) ==
                if y1 <= q < y2 && (p == left || p == right) then 255 else Sample(old(raw[..]), p, q, w)
  {
    var y := y1;
    while y < y2
      invariant y1 <= y && SameChroma(old(raw[..]), raw[..], ySize)
      invariant forall p, q :: 0 <= p < w && 0 <= q < h ==>
                  Sample(raw[..], p, q, w) ==
                    if y1 <= q < y && q < y2 && (p == left || p == right) then 255 else Sample(old(raw[..]), p, q, w)
    {
      if left < w {
        Put(raw, left, y, w, h, ySize, 255);
      }
      if right >= 0 && right < w {
        Put(raw, right, y, w, h, ySize, 255);
      }
      y := y + 1;
    }
  }

  /** Border pixels drawn by the first n passes. */
  predicate OnPasses(z: Zone, x: int, y: int, w: int, h: int, n: int) {
    var x2, y2 := Min(z.x2, w), Min(z.y2, h);
    || (z.x1 <= x < x2 && (z.y1 <= y < z.y1 + n || y2 - n <= y < y2))
    || (z.y1 <= y < y2 && (z.x1 <= x < z.x1 + n || x2 - n <= x < x2))
  }

  method DrawBorder(raw: array<Byte>, z: Zone, w: int, h: int, ySize: nat)
    requires 0 <= z.x1 && 0 <= z.y1 && 0 <= w && 0 <= h && w * h == ySize <= raw.Length
    modifies raw
    ensures SameChroma(old(raw[..]), raw[..], ySize)
    ensures forall p, q :: 0 <= p < w && 0 <= q < h ==>
              Sample(raw[..], p, q, w) == if OnBorder(z, p, q, w, h) then 255 else Sample(old(raw[..]), p, q, w)
  {
    var x1, y1, x2, y2 := z.x1, z.y1, Min(z.x2, w), Min(z.y2, h);
    var t := 0;
    while t < 4
      invariant 0 <= t <= 4 && SameChroma(old(raw[..]), raw[..], ySize)
      invariant forall p, q :: 0 <= p < w && 0 <= q < h ==>
                  Sample(raw[..], p, q, w) ==
                    if OnPasses(z, p, q, w, h, t) then 255 else Sample(old(raw[..]), p, q, w)
    {
      PaintAcross(raw, x1, x2, y1 + t, y2 - 1 - t, w, h, ySize);
      PaintDown(raw, y1, y2, x1 + t, x2 - 1 - t, w, h, ySize);
      t := t + 1;
    }
  }

  /** The diagonal pattern inside the border. */
  method DrawHatch(raw: array<Byte>, z: Zone, w: int, h: int, ySize: nat)
    requires 0 <= z.x1 && 0 <= z.y1 && 0 <= w && 0 <= h && w * h == ySize <= raw.Length
    modifies raw
    ensures SameChroma(old(raw[..]), raw[..], ySize)
    ensures forall p, q :: 0 <= p < w && 0 <= q < h ==>
              Sample(raw[..], p, q, w) == if OnHatch(z, p, q, w, h) then 220 else Sample(old(raw[..]), p, q, w)
  {
    var x1, y1, x2, y2 := z.x1, z.y1, Min(z.x2, w), Min(z.y2, h);
    var y := y1 + 4;
    while y < y2 - 4
      invariant y1 + 4 <= y && SameChroma(old(raw[..]), raw[..], ySize)
      invariant forall p, q :: 0 <= p < w && 0 <= q < h ==>
                  Sample(raw[..], p, q, w) ==
                    if OnHatch(z, p, q, w, h) && q < y then 220 else Sample(old(raw[..]), p, q, w)
    {
      HatchRow(raw, y, x1 + 4, x2 - 4, w, h, ySize);
      y := y + 1;
    }
  }

  method HatchRow(raw: array<Byte>, y: int, lo: int, hi: int, w: int, h: int, ySize: nat)
    requires 0 <= lo && hi <= w && 0 <= y < h && 0 <= w && w * h == ySize <= raw.Length
    modifies raw
    ensures SameChroma(old(raw[..]), raw[..], ySize)
    ensures forall p, q :: 0 <= p < w && 0 <= q < h ==>
              Sample(raw[..], p, q, w) ==
                if q == y && lo <= p < hi && OnDiagonal(p, y) then 220 else Sample(old(raw[..]), p, q, w)
  {
    var x := lo;
    while x < hi
      invariant lo <= x && SameChroma(old(raw[..]), raw[..], ySize)
      invariant forall p, q :: 0 <= p < w && 0 <= q < h ==>
                  Sample(raw[..], p, q, w) ==
                    if q == y && lo <= p < x && p < hi && OnDiagonal(p, y) then 220
                    else Sample(old(raw[..]), p, q, w)
    {
      if OnDiagonal(x, y) {
        Put(raw, x, y, w, h, ySize, 220);
      }
      x := x + 1;
    }
  }

  /** Every address of the plane is a pixel of the frame. */
  lemma PixelOf(i: int, w: int, h: int)
    requires 0 <= i < w * h && 0 <= w && 0 <= h
    ensures w > 0 && 0 <= i % w < w && 0 <= i / w < h && At(i % w, i / w, w) == i
  {
    AtOfParts(i, w);
    MulOrder(h, i / w, w);
  }

  lemma ChromaParts(a: seq<Byte>, b: seq<Byte>, ySize: nat, cSize: nat)
    requires |a| == |b| >= ySize + cSize && a[ySize..] == b[ySize..]
    ensures a[ySize..ySize + cSize] == b[ySize..ySize + cSize] && a[ySize + cSize..] == b[ySize + cSize..]
  {
    assert a[ySize..][..cSize] == a[ySize..ySize + cSize] && b[ySize..][..cSize] == b[ySize..ySize + cSize];
    assert a[ySize..][cSize..] == a[ySize + cSize..] && b[ySize..][cSize..] == b[ySize + cSize..];
  }

  // ------------------------------------------------------------ the manager

  /** The picture handed to the encoder: one luminance and two chroma planes. */
  datatype Picture = Picture(y: seq<Byte>, cb: seq<Byte>, cr: seq<Byte>)

  datatype Answer =
    | NoFrameYet
    | EncodingFailed
    | Cached(jpeg: seq<Byte>, at: int)
    | Rendered(picture: Picture, at: int)

  const CACHE_LIFETIME := 4000

  class SnapshotManager {
    var rawFrame: array<Byte>
    var jpegBytes: seq<Byte>
    var updatedAt: Option<int>
    const frameW: nat
    const frameH: nat
    const ySize: nat
    const cSize: nat
    const zones: seq<Zone>

    ghost predicate Valid()
      reads this
    {
      && ySize == frameW * frameH && cSize == frameW / 2 * (frameH / 2) && rawFrame.Length == ySize + 2 * cSize
      && forall z :: z in zones ==> 0 <= z.x1 && 0 <= z.y1
    }

    constructor (frameWidth: nat, frameHeight: nat, excludeZones: seq<Zone>)
      requires forall z :: z in excludeZones ==> 0 <= z.x1 && 0 <= z.y1
      ensures Valid() && updatedAt == None && fresh(rawFrame)
      ensures frameW == frameWidth && frameH == frameHeight && zones == excludeZones
    {
      ProductNat(frameWidth, frameHeight);
      ProductNat(frameWidth / 2, frameHeight / 2);
      frameW, frameH, zones := frameWidth, frameHeight, excludeZones;
      ySize := frameWidth * frameHeight;
      cSize := frameWidth / 2 * (frameHeight / 2);
      rawFrame := new Byte[frameWidth * frameHeight + 2 * (frameWidth / 2 * (frameHeight / 2))](_ => 0);
      jpegBytes := [];
      updatedAt := None;
    }

    /** Copies as many bytes as both buffers have. */
    method UpdateRaw(raw: seq<Byte>, now: int)
      requires Valid()
      modifies this`updatedAt, rawFrame
      ensures Valid() && updatedAt == Some(now)
      ensures var n := Min(|raw|, rawFrame.Length); rawFrame[..] == raw[..n] + old(rawFrame[..])[n..]
    {
      var n := Min(|raw|, rawFrame.Length);
      forall i | 0 <= i < n {
        rawFrame[i] := raw[i];
      }
      updatedAt := Some(now);
    }

    method UpdateJPEG(jpeg: seq<Byte>, now: int)
      requires Valid()
      modifies this`updatedAt, this`jpegBytes
      ensures Valid() && updatedAt == Some(now) && jpegBytes == jpeg
    {
      jpegBytes := jpeg;
      updatedAt := Some(now);
    }

    /**
     * A cached picture without a grid, otherwise one rendered from a copy of the raw frame; `encodes` is what the
     * encoder makes of it. Nothing stored changes, and the chroma shown is always the stored chroma.
     */
    method GetSnapshot(withGrid: bool, now: int, encodes: bool) returns (answer: Answer)
      requires Valid()
      ensures answer.NoFrameYet? <==> updatedAt == None
      ensures answer.Cached? <==>
              updatedAt.Some? && !withGrid && jpegBytes != [] && now - updatedAt.value < 4000
      ensures answer.Cached? ==> answer == Cached(jpegBytes, updatedAt.value)
      ensures answer.EncodingFailed? ==> !encodes
      ensures answer.Rendered? ==>
                && encodes && answer.at == updatedAt.value
                && |answer.picture.y| == ySize
                && answer.picture.cb == rawFrame[ySize..ySize + cSize]
                && answer.picture.cr == rawFrame[ySize + cSize..]
                && (!withGrid ==> answer.picture.y == rawFrame[..ySize])
                && (withGrid ==> Overlaid(rawFrame[..ySize], answer.picture.y))
    {
      if updatedAt == None {
        return NoFrameYet;
      }
      if !withGrid && jpegBytes != [] && now - updatedAt.value < CACHE_LIFETIME {
        return Cached(jpegBytes, updatedAt.value);
      }
      var picture := Render(withGrid);
      return if encodes then Rendered(picture, updatedAt.value) else EncodingFailed;
    }

    /** The picture to encode, made from a copy of the raw frame. */
    method Render(withGrid: bool) returns (picture: Picture)
      requires Valid()
      ensures |picture.y| == ySize
      ensures picture.cb == rawFrame[ySize..ySize + cSize] && picture.cr == rawFrame[ySize + cSize..]
      ensures !withGrid ==> picture.y == rawFrame[..ySize]
      ensures withGrid ==> Overlaid(rawFrame[..ySize], picture.y)
    {
      var rawCopy := new Byte[rawFrame.Length](i requires 0 <= i < rawFrame.Length reads this, rawFrame => rawFrame[i]);
      ghost var was := rawFrame[..];
      assert rawCopy[..] == was;
      if withGrid {
        DrawVisualOverlay(rawCopy);
        LuminanceOnly(was, rawCopy[..]);
      }
      assert rawCopy[ySize..] == was[ySize..];
      ChromaParts(rawCopy[..], was, ySize, cSize);
      picture := Picture(rawCopy[..ySize], rawCopy[ySize..ySize + cSize], rawCopy[ySize + cSize..]);
    }

    /** Pixel by pixel, b is a with the overlay on top. */
    ghost predicate Overlaid(a: seq<Byte>, b: seq<Byte>) {
      forall p, q :: 0 <= p < frameW && 0 <= q < frameH ==>
        Sample(b, p, q, frameW) == OverlayPixel(zones, p, q, frameW, frameH, Sample(a, p, q, frameW))
    }

    /** Whatever buffer a became b by drawing, drawing on b leaves b, byte for byte. */
    lemma {:induction false} RedrawChangesNothing(a: seq<Byte>, b: seq<Byte>, c: seq<Byte>)
      requires ySize == frameW * frameH && ySize <= |b|
      requires Overlaid(a, b) && Overlaid(b, c) && SameChroma(b, c, ySize)
      ensures c == b
    {
      forall i | 0 <= i < ySize
        ensures c[i] == b[i]
      {
        PixelOf(i, frameW, frameH);
        var p, q := i % frameW, i / frameW;
        OverlayIsIdempotent(zones, p, q, frameW, frameH, Sample(a, p, q, frameW));
        assert Sample(b, p, q, frameW) == b[i] && Sample(c, p, q, frameW) == c[i];
      }
    }

    lemma LuminanceOnly(a: seq<Byte>, b: seq<Byte>)
      requires ySize == frameW * frameH && ySize <= |a| && ySize <= |b| && Overlaid(a, b)
      ensures Overlaid(a[..ySize], b[..ySize])
    {
      forall p, q | 0 <= p < frameW && 0 <= q < frameH
        ensures Sample(a[..ySize], p, q, frameW) == Sample(a, p, q, frameW)
        ensures Sample(b[..ySize], p, q, frameW) == Sample(b, p, q, frameW)
      {
        AtInBounds(p, q, frameW, frameH);
      }
    }

    /** Burns the coordinate lines and the zones into the luminance plane. */
    method DrawVisualOverlay(raw: array<Byte>)
      requires Valid() && ySize <= raw.Length && raw != rawFrame
      modifies raw
      ensures SameChroma(old(raw[..]), raw[..], ySize) && Overlaid(old(raw[..]), raw[..])
      ensures zones == [] ==> forall p, q :: 0 <= p < frameW && 0 <= q < frameH ==>
                Sample(raw[..], p, q, frameW) ==
                  if (p > 0 && p % 200 == 0) || (q > 0 && q % 200 == 0) then 240
                  else Sample(old(raw[..]), p, q, frameW)
    {
      DrawGrid(raw, frameW, frameH, ySize);
      for k := 0 to |zones|
        invariant SameChroma(old(raw[..]), raw[..], ySize)
        invariant forall p, q :: 0 <= p < frameW && 0 <= q < frameH ==>
                    Sample(raw[..], p, q, frameW)
                    == OverlayPixel(zones[..k], p, q, frameW, frameH, Sample(old(raw[..]), p, q, frameW))
      {
        DrawBorder(raw, zones[k], frameW, frameH, ySize);
        DrawHatch(raw, zones[k], frameW, frameH, ySize);
        assert zones[..k + 1][..k] == zones[..k];
      }
      assert zones[..|zones|] == zones;
    }
  }
}
