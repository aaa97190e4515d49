/** Vocabulary shared by the components: optional values, bytes, boxes and row-major addressing. */
module Common {

  datatype Option<+T> = None | Some(value: T)

  /** One 8-bit sample. */
  type Byte = b: int | 0 <= b < 256

  /** A luminance plane, row by row. */
  type Plane = seq<Byte>

  /** A pixel rectangle, right and bottom edges excluded. */
  datatype Box = Box(x1: int, y1: int, x2: int, y2: int)

  function Min(a: int, b: int): int {
    if a < b then a else b
  }

  function Max(a: int, b: int): int {
    if a > b then a else b
  }

  /** Row-major address of pixel (x, y) in rows of w samples. */
  function At(x: int, y: int, w: int): int {
    y * w + x
  }

  lemma AtInBounds(x: int, y: int, w: int, h: int)
    requires 0 <= x < w && 0 <= y < h
    ensures 0 <= At(x, y, w) < w * h
  {
    assert y * w + w == (y + 1) * w <= h * w;
  }

  /** Number of cells in the first `row` rows of width w, counted row by row. */
  ghost function RowStart(row: nat, w: nat): nat {
    if row == 0 then 0 else RowStart(row - 1, w) + w
  }

  lemma {:induction false} RowStartIsProduct(row: nat, w: nat)
    ensures RowStart(row, w) == row * w == w * row
  {
    if row != 0 {
      RowStartIsProduct(row - 1, w);
      assert (row - 1) * w + w == row * w;
    }
  }

  lemma {:induction false} RowFits(row: nat, w: nat, h: nat)
    requires row < h
    ensures RowStart(row + 1, w) == RowStart(row, w) + w <= RowStart(h, w)
    decreases h
  {
    if row + 1 < h {
      RowFits(row, w, h - 1);
    }
  }

  lemma AtInjective(x: int, y: int, u: int, v: int, w: int)
    requires 0 <= x < w && 0 <= u < w
    ensures At(x, y, w) == At(u, v, w) <==> x == u && y == v
  {
    if y < v {
      assert y * w + w == (y + 1) * w <= v * w;
    } else if v < y {
      assert v * w + w == (v + 1) * w <= y * w;
    }
  }

  /** Every address of a w by h plane is the address of one pixel. */
  lemma AtDivMod(x: int, y: int, w: int)
    requires 0 <= x < w
    ensures At(x, y, w) / w == y && At(x, y, w) % w == x
  {
    var i := At(x, y, w);
    assert i == At(i % w, i / w, w);
    AtInjective(x, y, i % w, i / w, w);
  }

  lemma AtOfParts(i: int, w: int)
    requires w > 0
    ensures i == At(i % w, i / w, w) && 0 <= i % w < w
  {
  }

  lemma SubsetSize<T>(a: set<T>, b: set<T>)
    requires a <= b
    ensures |a| <= |b|
    ensures |a| == |b| ==> a == b
  {
    assert b == a + (b - a);
    assert |b| == |a| + |b - a|;
  }

  /** The first n indices. */
  ghost function Range(n: nat): (r: set<int>)
    ensures |r| == n
    ensures forall i :: i in r <==> 0 <= i < n
  {
    if n == 0 then {} else Range(n - 1) + {n - 1}
  }

  /** Multiplying by a positive factor keeps a strict order, with room for one more step. */
  lemma MulLess(a: int, b: int, k: int)
    requires k > 0 && a < b
    ensures a * k + k <= b * k
  {
    var d := b - a - 1;
    assert b * k == (a + 1 + d) * k == a * k + k + d * k;
    assert 0 <= d * k;
  }

  lemma ProductNat(a: nat, b: nat)
    ensures 0 <= a * b
  {
  }

  lemma MulOrder(a: int, b: int, k: int)
    requires k > 0
    ensures a < b ==> a * k + k <= b * k
    ensures a <= b <==> a * k <= b * k
  {
    if a < b {
      MulLess(a, b, k);
    } else if b < a {
      MulLess(b, a, k);
    }
  }

  /** Multiples of k: v lies in exactly one step. */
  lemma DivStep(v: int, k: int)
    requires k > 0
    ensures v / k * k <= v < v / k * k + k
    ensures v % k == 0 <==> v == v / k * k
  {
  }

  lemma StepUnique(v: int, b: int, k: int)
    requires k > 0
    ensures b * k <= v < b * k + k <==> b == v / k
  {
    DivStep(v, k);
    MulOrder(b, v / k, k);
    MulOrder(v / k, b, k);
  }

  lemma FitsInQuotient(m: int, k: int, v: int)
    requires k > 0 && m * k <= v
    ensures m <= v / k
  {
    DivStep(v, k);
    if v / k < m {
      MulLess(v / k, m, k);
    }
  }
}
