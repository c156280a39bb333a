/** The arithmetic of the `mousemove` frame callback
    (js/tiltfx.js:305-331) and of the `mouseleave` reset
    (js/tiltfx.js:340-344). Numbers are exact reals; the CSS transform
    string is modelled as a record holding the values it is built from. */
module Motion {
  import opened Wrappers

  /** Width and height of the view watcher. */
  datatype View = View(width: real, height: real)

  /** The pointer position relative to the wrapper's top-left corner. */
  datatype Point = Point(x: real, y: real)

  /** The six axis magnitudes, a missing or falsy one already read as 0. */
  datatype Magnitudes = Magnitudes(
    rotateX: real, rotateY: real, rotateZ: real,
    translateX: real, translateY: real, translateZ: real)

  datatype Vec3 = Vec3(x: real, y: real, z: real)

  /** One `rotate3d(ax, ay, az, angle deg)` term. */
  datatype Rotation = Rotation(axis: Vec3, angle: real)

  /** A layer's transform: `perspective(p px) translate3d(...)`, its
      rotations in order, then an optional `scale(s, s)`. */
  datatype Transform = Transform(
    perspective: real,
    translate: Vec3,
    rotations: seq<Rotation>,
    scale: Option<real>)

  function Abs(x: real): real {
    if x >= 0.0 then x else -x
  }

  /** The share of an axis magnitude that layer `i` of `imgCount` moves
      through: `(i+1) * mag / imgCount`. */
  function Weight(mag: real, i: nat, imgCount: nat): real
    requires i < imgCount
  {
    (i + 1) as real * mag / imgCount as real
  }

  /** One axis of one layer: `2*w/extent*p - w` when the magnitude is
      truthy, 0 otherwise. */
  function Axis(mag: real, i: nat, imgCount: nat, extent: real, p: real): real
    requires i < imgCount && extent > 0.0
  {
    if mag != 0.0 then
      2.0 * Weight(mag, i, imgCount) / extent * p - Weight(mag, i, imgCount)
    else 0.0
  }

  /** The per-layer scale factor: `1 + grade * (len - (i+1))`. */
  function Scale(grade: real, len: nat, i: nat): real
    requires i < len
  {
    1.0 + grade * (len - (i + 1)) as real
  }

  /** The scale term is written only when the factor differs from 1. */
  function ScaleTerm(scale: real): (r: Option<real>)
    ensures r.Some? <==> scale != 1.0
    ensures r.Some? ==> r.value == scale
  {
    if scale != 1.0 then Some(scale) else None
  }

  const XAxis: Vec3 := Vec3(1.0, 0.0, 0.0)
  const YAxis: Vec3 := Vec3(0.0, 1.0, 0.0)
  const ZAxis: Vec3 := Vec3(0.0, 0.0, 1.0)
  const Origin: Vec3 := Vec3(0.0, 0.0, 0.0)

  /** The transform the frame callback writes for moving layer `i`.
      rotateX, translateY and translateZ follow the pointer's y over the
      view's height; rotateY, rotateZ and translateX follow x over the
      width. The scale uses the number of moving layers, which equals
      `imgCount`. */
  function LayerTransform(perspective: real, m: Magnitudes, grade: real,
                          imgCount: nat, i: nat, view: View, p: Point): Transform
    requires i < imgCount && view.width > 0.0 && view.height > 0.0
  {
    var rotX := Axis(m.rotateX, i, imgCount, view.height, p.y);
    var rotY := Axis(m.rotateY, i, imgCount, view.width, p.x);
    var rotZ := Axis(m.rotateZ, i, imgCount, view.width, p.x);
    var transX := Axis(m.translateX, i, imgCount, view.width, p.x);
    var transY := Axis(m.translateY, i, imgCount, view.height, p.y);
    var transZ := Axis(m.translateZ, i, imgCount, view.height, p.y);
    Transform(perspective, Vec3(transX, transY, transZ),
              [Rotation(XAxis, rotX), Rotation(YAxis, rotY), Rotation(ZAxis, rotZ)],
              ScaleTerm(Scale(grade, imgCount, i)))
  }

  /** The reset transform: the configured perspective, no translation and
      a single 0-degree rotation about (1,1,1). */
  function Neutral(perspective: real): (t: Transform)
    ensures NeutralPose(t) && t.perspective == perspective && t.scale.None?
  {
    Transform(perspective, Origin, [Rotation(Vec3(1.0, 1.0, 1.0), 0.0)], None)
  }

  /** No translation and every rotation angle 0. */
  predicate NeutralPose(t: Transform) {
    t.translate == Origin && forall k :: 0 <= k < |t.rotations| ==> t.rotations[k].angle == 0.0
  }

  // ---------------------------------------------------------------------
  // Properties of one axis

  /** The formula factors into the layer's weight times the pointer's
      offset from the centre, normalised to [-1, 1] over the extent. */
  lemma AxisFactors(mag: real, i: nat, imgCount: nat, extent: real, p: real)
    requires i < imgCount && extent > 0.0
    ensures Axis(mag, i, imgCount, extent, p) == Weight(mag, i, imgCount) * (2.0 * p / extent - 1.0)
  {
    var w := Weight(mag, i, imgCount);
    if mag != 0.0 {
      calc {
        2.0 * w / extent * p - w;
        w * (2.0 / extent) * p - w;
        w * (2.0 * p / extent) - w;
        w * (2.0 * p / extent - 1.0);
      }
    } else {
      assert w == 0.0;
    }
  }

  /** A pointer at the centre of the extent gives 0 on every layer. */
  lemma AxisCentre(mag: real, i: nat, imgCount: nat, extent: real)
    requires i < imgCount && extent > 0.0
    ensures Axis(mag, i, imgCount, extent, extent / 2.0) == 0.0
  {
    AxisFactors(mag, i, imgCount, extent, extent / 2.0);
    assert 2.0 * (extent / 2.0) / extent == 1.0;
  }

  /** At the edges the value is exactly minus / plus the layer's weight. */
  lemma AxisEdges(mag: real, i: nat, imgCount: nat, extent: real)
    requires i < imgCount && extent > 0.0
    ensures Axis(mag, i, imgCount, extent, 0.0) == -Weight(mag, i, imgCount)
    ensures Axis(mag, i, imgCount, extent, extent) == Weight(mag, i, imgCount)
  {
    AxisFactors(mag, i, imgCount, extent, 0.0);
    AxisFactors(mag, i, imgCount, extent, extent);
    assert 2.0 * extent / extent == 2.0;
  }

  /** The outermost layer's weight is the full magnitude, so at the edges
      it reaches exactly -mag and +mag. */
  lemma OutermostReachesMagnitude(mag: real, imgCount: nat, extent: real)
    requires 0 < imgCount && extent > 0.0
    ensures Weight(mag, imgCount - 1, imgCount) == mag
    ensures Axis(mag, imgCount - 1, imgCount, extent, 0.0) == -mag
    ensures Axis(mag, imgCount - 1, imgCount, extent, extent) == mag
  {
    assert ((imgCount - 1) + 1) as real == imgCount as real;
    AxisEdges(mag, imgCount - 1, imgCount, extent);
  }

  /** Mirroring the pointer about the centre negates the value. */
  lemma AxisMirror(mag: real, i: nat, imgCount: nat, extent: real, p: real)
    requires i < imgCount && extent > 0.0
    ensures Axis(mag, i, imgCount, extent, extent - p) == -Axis(mag, i, imgCount, extent, p)
  {
    AxisFactors(mag, i, imgCount, extent, p);
    AxisFactors(mag, i, imgCount, extent, extent - p);
    assert 2.0 * (extent - p) / extent == 2.0 * extent / extent - 2.0 * p / extent;
    assert 2.0 * extent / extent == 2.0;
  }

  /** While the pointer stays inside the extent, no layer moves further
      than its weight, and no weight exceeds the magnitude. */
  lemma AxisBounded(mag: real, i: nat, imgCount: nat, extent: real, p: real)
    requires i < imgCount && extent > 0.0 && 0.0 <= p <= extent
    ensures Abs(Axis(mag, i, imgCount, extent, p)) <= Abs(Weight(mag, i, imgCount))
    ensures Abs(Weight(mag, i, imgCount)) <= Abs(mag)
  {
    AxisFactors(mag, i, imgCount, extent, p);
    OffsetInUnitRange(p, extent);
    ProductShrinks(Weight(mag, i, imgCount), 2.0 * p / extent - 1.0);
    WeightBound(mag, i, imgCount);
  }

  /** Inside the extent the normalised offset lies in [-1, 1]. */
  lemma OffsetInUnitRange(p: real, extent: real)
    requires extent > 0.0 && 0.0 <= p <= extent
    ensures -1.0 <= 2.0 * p / extent - 1.0 <= 1.0
  {
    DivOrdered(0.0, 2.0 * p, extent);
    DivOrdered(2.0 * p, 2.0 * extent, extent);
    assert 2.0 * extent / extent == 2.0;
  }

  /** A weight is the layer's rank `i+1` times one step `mag/imgCount`. */
  lemma WeightSteps(mag: real, i: nat, imgCount: nat)
    requires i < imgCount
    ensures Weight(mag, i, imgCount) == (i + 1) as real * (mag / imgCount as real)
  {
    DivScale((i + 1) as real, mag, imgCount as real);
  }

  /** |weight| = (i+1)/imgCount * |mag|, which is at most |mag|. */
  lemma WeightBound(mag: real, i: nat, imgCount: nat)
    requires i < imgCount
    ensures Abs(Weight(mag, i, imgCount)) == (i + 1) as real / imgCount as real * Abs(mag)
    ensures Abs(Weight(mag, i, imgCount)) <= Abs(mag)
  {
    var q := RankShare(i, imgCount);
    DivScale2((i + 1) as real, mag, imgCount as real);
    ShareOf(Weight(mag, i, imgCount), q, mag);
  }

  /** The share `(i+1)/imgCount` of a layer lies in [0, 1]. */
  lemma RankShare(i: nat, imgCount: nat) returns (q: real)
    requires i < imgCount
    ensures q == (i + 1) as real / imgCount as real
    ensures 0.0 <= q <= 1.0
  {
    var n := imgCount as real;
    q := (i + 1) as real / n;
    DivOrdered(0.0, (i + 1) as real, n);
    DivOrdered((i + 1) as real, n, n);
    assert n / n == 1.0;
  }

  /** Parallax depth ordering: for the same pointer sample and magnitude,
      a higher layer never moves less than a lower one. */
  lemma AxisDepthOrdered(mag: real, i: nat, j: nat, imgCount: nat, extent: real, p: real)
    requires i <= j < imgCount && extent > 0.0
    ensures Abs(Axis(mag, i, imgCount, extent, p)) <= Abs(Axis(mag, j, imgCount, extent, p))
  {
    RankedAxis(mag, i, imgCount, extent, p);
    RankedAxis(mag, j, imgCount, extent, p);
    RankOrdered(Axis(mag, i, imgCount, extent, p), Axis(mag, j, imgCount, extent, p),
                (i + 1) as real, (j + 1) as real, mag / imgCount as real * (2.0 * p / extent - 1.0));
  }

  /** An axis value is the layer's rank `i+1` times a factor that does not
      depend on the layer. */
  lemma RankedAxis(mag: real, i: nat, imgCount: nat, extent: real, p: real)
    requires i < imgCount && extent > 0.0
    ensures Axis(mag, i, imgCount, extent, p)
            == (i + 1) as real * (mag / imgCount as real * (2.0 * p / extent - 1.0))
  {
    AxisFactors(mag, i, imgCount, extent, p);
    WeightSteps(mag, i, imgCount);
    MulAssociates((i + 1) as real, mag / imgCount as real, 2.0 * p / extent - 1.0);
  }

  /** Weights grow in absolute value with the layer index. */
  lemma WeightOrdered(mag: real, i: nat, j: nat, imgCount: nat)
    requires i <= j < imgCount
    ensures Abs(Weight(mag, i, imgCount)) <= Abs(Weight(mag, j, imgCount))
  {
    WeightSteps(mag, i, imgCount);
    WeightSteps(mag, j, imgCount);
    RankOrdered(Weight(mag, i, imgCount), Weight(mag, j, imgCount),
                (i + 1) as real, (j + 1) as real, mag / imgCount as real);
  }

  // Real-arithmetic helpers. Each sign case is a lemma of its own, so that
  // every proof obligation holds only a couple of products.

  lemma MulNonNegative(x: real, y: real)
    requires x >= 0.0 && y >= 0.0
    ensures x * y >= 0.0
  {
  }

  lemma MulOrdered(a: real, b: real, c: real)
    requires a <= b && c >= 0.0
    ensures a * c <= b * c
  {
    MulNonNegative(b - a, c);
    assert (b - a) * c == b * c - a * c;
  }

  lemma MulAssociates(a: real, b: real, c: real)
    ensures a * b * c == a * (b * c)
  {
  }

  /** A non-negative amount times a factor at most 1 is at most the amount. */
  lemma MulAtMost(c: real, a: real)
    requires c >= 0.0 && a <= 1.0
    ensures a * c <= c
  {
    MulOrdered(a, 1.0, c);
  }

  lemma DivNonNegative(x: real, n: real)
    requires x >= 0.0 && n > 0.0
    ensures x / n >= 0.0
  {
  }

  lemma DivOrdered(a: real, b: real, n: real)
    requires a <= b && n > 0.0
    ensures a / n <= b / n
  {
    DivNonNegative(b - a, n);
    assert b / n - a / n == (b - a) / n;
  }

  lemma DivScale(k: real, m: real, n: real)
    requires n != 0.0
    ensures k * m / n == k * (m / n)
  {
    var q := m / n;
    assert q * n == m;
    assert (k * q) * n == k * m;
  }

  lemma DivScale2(k: real, m: real, n: real)
    requires n != 0.0
    ensures k * m / n == (k / n) * m
  {
    var q := k / n;
    assert q * n == k;
    assert (q * m) * n == k * m;
  }

  /** A share `w = q * m` with q in [0, 1] has |w| = q * |m| <= |m|. */
  lemma ShareOf(w: real, q: real, m: real)
    requires w == q * m && 0.0 <= q <= 1.0
    ensures Abs(w) == q * Abs(m) && Abs(w) <= Abs(m)
  {
    if m >= 0.0 {
      ShareOfNonNegative(w, q, m);
    } else {
      ShareOfNegative(w, q, m);
    }
  }

  lemma ShareOfNonNegative(w: real, q: real, m: real)
    requires w == q * m && 0.0 <= q <= 1.0 && m >= 0.0
    ensures Abs(w) == q * Abs(m) && Abs(w) <= Abs(m)
  {
    MulNonNegative(q, m);
    MulAtMost(m, q);
  }

  lemma ShareOfNegative(w: real, q: real, m: real)
    requires w == q * m && 0.0 <= q <= 1.0 && m < 0.0
    ensures Abs(w) == q * Abs(m) && Abs(w) <= Abs(m)
  {
    MulNonNegative(q, -m);
    MulAtMost(-m, q);
    assert q * -m == -w;
  }

  /** Multiplying by a factor in [-1, 1] never increases the absolute value. */
  lemma ProductShrinks(w: real, f: real)
    requires -1.0 <= f <= 1.0
    ensures Abs(w * f) <= Abs(w)
  {
    if w >= 0.0 {
      ProductShrinksNonNegative(w, f);
    } else {
      ProductShrinksNegative(w, f);
    }
  }

  lemma ProductWithin(w: real, f: real)
    requires w >= 0.0 && -1.0 <= f <= 1.0
    ensures -w <= w * f <= w
  {
    MulAtMost(w, f);
    MulAtMost(w, -f);
    assert -f * w == -(w * f);
  }

  lemma ProductShrinksNonNegative(w: real, f: real)
    requires w >= 0.0 && -1.0 <= f <= 1.0
    ensures Abs(w * f) <= Abs(w)
  {
    ProductWithin(w, f);
  }

  lemma ProductShrinksNegative(w: real, f: real)
    requires w < 0.0 && -1.0 <= f <= 1.0
    ensures Abs(w * f) <= Abs(w)
  {
    ProductWithin(-w, f);
    assert -w * f == -(w * f);
  }

  /** With ranks 0 <= ki <= kj, `b = kj * c` is at least as large as
      `a = ki * c` in absolute value. */
  lemma RankOrdered(a: real, b: real, ki: real, kj: real, c: real)
    requires 0.0 <= ki <= kj && a == ki * c && b == kj * c
    ensures Abs(a) <= Abs(b)
  {
    if c >= 0.0 {
      RankOrderedNonNegative(a, b, ki, kj, c);
    } else {
      RankOrderedNegative(a, b, ki, kj, c);
    }
  }

  lemma RankOrderedNonNegative(a: real, b: real, ki: real, kj: real, c: real)
    requires 0.0 <= ki <= kj && a == ki * c && b == kj * c && c >= 0.0
    ensures Abs(a) <= Abs(b)
  {
    MulNonNegative(ki, c);
    MulOrdered(ki, kj, c);
  }

  lemma RankOrderedNegative(a: real, b: real, ki: real, kj: real, c: real)
    requires 0.0 <= ki <= kj && a == ki * c && b == kj * c && c < 0.0
    ensures Abs(a) <= Abs(b)
  {
    MulNonNegative(ki, -c);
    MulOrdered(ki, kj, -c);
    assert ki * -c == -a;
    assert kj * -c == -b;
  }

  // ---------------------------------------------------------------------
  // Properties of the scale factor

  /** The scale steps down by `grade` per layer and is exactly 1 on the
      top layer; with a zero grade it is 1 everywhere. */
  lemma ScaleSteps(grade: real, len: nat, i: nat)
    requires i < len
    ensures Scale(grade, len, len - 1) == 1.0
    ensures grade == 0.0 ==> Scale(grade, len, i) == 1.0
    ensures i + 1 < len ==> Scale(grade, len, i) == Scale(grade, len, i + 1) + grade
  {
  }

  /** The scale term appears exactly for layers below the top one when the
      grade is non-zero. */
  lemma ScaleTermIffGraded(grade: real, len: nat, i: nat)
    requires i < len
    ensures ScaleTerm(Scale(grade, len, i)).Some? <==> grade != 0.0 && i + 1 < len
  {
    if grade != 0.0 && i + 1 < len {
      assert (len - (i + 1)) as real > 0.0;
      assert grade * (len - (i + 1)) as real != 0.0;
    }
  }

  // ---------------------------------------------------------------------
  // Properties of a whole layer transform

  /** The pointer at the centre of the view puts every layer in the
      neutral pose (the scale term, fixed per layer, is unaffected). */
  lemma CentreIsNeutral(perspective: real, m: Magnitudes, grade: real,
                        imgCount: nat, i: nat, view: View)
    requires i < imgCount && view.width > 0.0 && view.height > 0.0
    ensures NeutralPose(LayerTransform(perspective, m, grade, imgCount, i, view,
                                       Point(view.width / 2.0, view.height / 2.0)))
  {
    AxisCentre(m.rotateX, i, imgCount, view.height);
    AxisCentre(m.rotateY, i, imgCount, view.width);
    AxisCentre(m.rotateZ, i, imgCount, view.width);
    AxisCentre(m.translateX, i, imgCount, view.width);
    AxisCentre(m.translateY, i, imgCount, view.height);
    AxisCentre(m.translateZ, i, imgCount, view.height);
  }

  /** Horizontal pointer motion moves only rotateY, rotateZ and
      translateX; vertical motion only rotateX, translateY and translateZ. */
  lemma AxesFollowTheirCoordinate(perspective: real, m: Magnitudes, grade: real,
                                  imgCount: nat, i: nat, view: View, p: Point, q: Point)
    requires i < imgCount && view.width > 0.0 && view.height > 0.0
    ensures var a := LayerTransform(perspective, m, grade, imgCount, i, view, p);
            var b := LayerTransform(perspective, m, grade, imgCount, i, view, q);
            && (p.y == q.y ==> a.rotations[0] == b.rotations[0] && a.translate.y == b.translate.y
                               && a.translate.z == b.translate.z)
            && (p.x == q.x ==> a.rotations[1] == b.rotations[1] && a.rotations[2] == b.rotations[2]
                               && a.translate.x == b.translate.x)
            && a.perspective == b.perspective == perspective && a.scale == b.scale
  {
  }

  /** A zero magnitude keeps its axis at 0 wherever the pointer is. */
  lemma ZeroMagnitudeStill(i: nat, imgCount: nat, extent: real, p: real)
    requires i < imgCount && extent > 0.0
    ensures Axis(0.0, i, imgCount, extent, p) == 0.0
  {
  }
}
