/**
 * Conversion of a box normalised to 0..1000, laid out [ymin, xmin, ymax, xmax],
 * into device pixels laid out [xmin, ymin, xmax, ymax], and its click point.
 */
module Geometry {

  /** The normalisation scale of the vision model's boxes. */
  const Scale: int := 1000

  /**
   * Python's int() on a real number truncates toward zero, whereas Dafny's
   * division on int is Euclidean; the two agree on non-negative numerators only.
   */
  function TruncDiv(n: int, d: int): (q: int)
    requires d > 0
    ensures n >= 0 ==> 0 <= q && q * d <= n < q * d + d
    ensures n < 0 ==> q <= 0 && n <= q * d < n + d
  {
    if n >= 0 then n / d else -((-n) / d)
  }

  /** int(b / 1000 * dim), computed exactly: the quotient b * dim / 1000 truncated toward zero. */
  function ScaleCoord(b: int, dim: int): (r: int)
    ensures b * dim >= 0 ==> 0 <= r && r * Scale <= b * dim < r * Scale + Scale
    ensures b * dim < 0 ==> r <= 0 && b * dim <= r * Scale < b * dim + Scale
  {
    TruncDiv(b * dim, Scale)
  }

  /** Python's (a + b) // 2: floor division, which Dafny's / agrees with for a positive divisor. */
  function Midpoint(a: int, b: int): (m: int)
    ensures 2 * m <= a + b < 2 * m + 2
    ensures a <= b ==> a <= m <= b
  {
    (a + b) / 2
  }

  /**
   * The abs_box list built from box_2d: the axes swap into x-first order, x
   * values scale by the width and y values by the height. Entries past the
   * fourth are ignored, as tools.py does.
   */
  function AbsBox(box: seq<int>, width: int, height: int): (r: seq<int>)
    requires |box| >= 4
    ensures |r| == 4
    ensures r[0] == ScaleCoord(box[1], width) && r[2] == ScaleCoord(box[3], width)
    ensures r[1] == ScaleCoord(box[0], height) && r[3] == ScaleCoord(box[2], height)
  {
    [ScaleCoord(box[1], width), ScaleCoord(box[0], height),
     ScaleCoord(box[3], width), ScaleCoord(box[2], height)]
  }

  /** click_x: the floor midpoint of the two x values of abs_box. */
  function ClickX(abs: seq<int>): (x: int)
    requires |abs| == 4
    ensures 2 * x <= abs[0] + abs[2] < 2 * x + 2
    ensures abs[0] <= abs[2] ==> abs[0] <= x <= abs[2]
  {
    Midpoint(abs[0], abs[2])
  }

  /** click_y: the floor midpoint of the two y values of abs_box. */
  function ClickY(abs: seq<int>): (y: int)
    requires |abs| == 4
    ensures 2 * y <= abs[1] + abs[3] < 2 * y + 2
    ensures abs[1] <= abs[3] ==> abs[1] <= y <= abs[3]
  {
    Midpoint(abs[1], abs[3])
  }

  lemma MulMonotone(a: int, b: int, k: int)
    requires a <= b && k >= 0
    ensures a * k <= b * k
  {
    assert b * k - a * k == (b - a) * k;
  }

  lemma {:induction false} TruncDivMonotone(m: int, n: int, d: int)
    requires m <= n && d > 0
    ensures TruncDiv(m, d) <= TruncDiv(n, d)
  {
    var p, q := TruncDiv(m, d), TruncDiv(n, d);
    if p > q {
      // p >= q + 1, so p * d >= q * d + d, which the truncation bounds rule out
      MulMonotone(q + 1, p, d);
      assert false;
    }
  }

  /** Scaling by a non-negative dimension preserves order. */
  lemma ScaleCoordMonotone(b1: int, b2: int, dim: int)
    requires b1 <= b2 && dim >= 0
    ensures ScaleCoord(b1, dim) <= ScaleCoord(b2, dim)
  {
    MulMonotone(b1, b2, dim);
    TruncDivMonotone(b1 * dim, b2 * dim, Scale);
  }

  /** A value on the 0..1000 scale lands in 0..dim, and the two ends land on 0 and dim exactly. */
  lemma ScaleCoordBounds(b: int, dim: int)
    requires 0 <= b <= Scale && dim >= 0
    ensures 0 <= ScaleCoord(b, dim) <= dim
    ensures ScaleCoord(0, dim) == 0 && ScaleCoord(Scale, dim) == dim
  {
    MulMonotone(0, b, dim);
    MulMonotone(b, Scale, dim);
    TruncDivMonotone(b * dim, Scale * dim, Scale);
    TruncDivExact(dim);
  }

  lemma TruncDivExact(dim: int)
    requires dim >= 0
    ensures TruncDiv(Scale * dim, Scale) == dim
  {
    var q := TruncDiv(Scale * dim, Scale);
    if q < dim {
      MulMonotone(q + 1, dim, Scale);
      assert false;
    } else if q > dim {
      MulMonotone(dim + 1, q, Scale);
      assert false;
    }
  }

  /** The floor midpoint of an ordered pair lies between its ends. */
  lemma MidpointBetween(a: int, b: int)
    requires a <= b
    ensures a <= Midpoint(a, b) <= b
  {
  }

  predicate InRange(box: seq<int>)
  {
    |box| >= 4 && forall i :: 0 <= i < 4 ==> 0 <= box[i] <= Scale
  }

  /**
   * With every box value in 0..1000 and non-negative dimensions, the x
   * coordinates of abs_box lie in 0..width and the y coordinates in 0..height;
   * an ordered input box gives an ordered absolute box.
   */
  lemma AbsBoxWithinScreen(box: seq<int>, width: int, height: int)
    requires InRange(box) && width >= 0 && height >= 0
    ensures var r := AbsBox(box, width, height);
      0 <= r[0] <= width && 0 <= r[2] <= width &&
      0 <= r[1] <= height && 0 <= r[3] <= height &&
      (box[1] <= box[3] ==> r[0] <= r[2]) &&
      (box[0] <= box[2] ==> r[1] <= r[3])
  {
    ScaleCoordBounds(box[0], height);
    ScaleCoordBounds(box[1], width);
    ScaleCoordBounds(box[2], height);
    ScaleCoordBounds(box[3], width);
    if box[1] <= box[3] { ScaleCoordMonotone(box[1], box[3], width); }
    if box[0] <= box[2] { ScaleCoordMonotone(box[0], box[2], height); }
  }

  /** The whole normalised screen maps to the whole device screen. */
  lemma FullScreenBox(width: int, height: int)
    requires width >= 0 && height >= 0
    ensures AbsBox([0, 0, Scale, Scale], width, height) == [0, 0, width, height]
  {
    ScaleCoordBounds(0, width);
    ScaleCoordBounds(0, height);
  }

  /** The worked example: a full-screen box on a 1080 x 2400 display is clicked at (540, 1200). */
  lemma FullScreenClickExample()
    ensures AbsBox([0, 0, 1000, 1000], 1080, 2400) == [0, 0, 1080, 2400]
    ensures ClickX([0, 0, 1080, 2400]) == 540 && ClickY([0, 0, 1080, 2400]) == 1200
  {
    FullScreenBox(1080, 2400);
  }

  /** Box b lies pointwise below box c. */
  predicate PointwiseLe(b: seq<int>, c: seq<int>)
    requires |b| >= 4 && |c| >= 4
  {
    forall i :: 0 <= i < 4 ==> b[i] <= c[i]
  }

  /** The mapping is monotone in each of the four input values. */
  lemma AbsBoxMonotone(b: seq<int>, c: seq<int>, width: int, height: int)
    requires |b| >= 4 && |c| >= 4 && PointwiseLe(b, c)
    requires width >= 0 && height >= 0
    ensures PointwiseLe(AbsBox(b, width, height), AbsBox(c, width, height))
  {
    ScaleCoordMonotone(b[1], c[1], width);
    ScaleCoordMonotone(b[0], c[0], height);
    ScaleCoordMonotone(b[3], c[3], width);
    ScaleCoordMonotone(b[2], c[2], height);
  }

  /**
   * When xmin <= xmax and ymin <= ymax, the click point lies inside abs_box,
   * bounds included. Values need not be in 0..1000 for this.
   */
  lemma ClickInsideAbsBox(box: seq<int>, width: int, height: int)
    requires |box| >= 4 && box[1] <= box[3] && box[0] <= box[2]
    requires width >= 0 && height >= 0
    ensures var r := AbsBox(box, width, height);
      r[0] <= ClickX(r) <= r[2] && r[1] <= ClickY(r) <= r[3]
  {
    var r := AbsBox(box, width, height);
    ScaleCoordMonotone(box[1], box[3], width);
    ScaleCoordMonotone(box[0], box[2], height);
    MidpointBetween(r[0], r[2]);
    MidpointBetween(r[1], r[3]);
  }
}
