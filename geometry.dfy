/** Axis-aligned box overlap in the playfield's mixed coordinates: horizontal
    positions are percentages of the container width, vertical positions are
    pixels. */
module Geometry {
  import opened Options

  /** Height of the playfield in pixels. */
  const ContainerHeight: real := 750.0

  /** A box in pixel coordinates. */
  datatype Box = Box(left: real, top: real, width: real, height: real)

  /** The box of an entity whose horizontal centre is at `xPercent` of the
      container width and whose top edge is at `y`. */
  function PlaceBox(xPercent: real, y: real, w: real, h: real, containerWidth: real): (r: Box)
  {
    Box(xPercent / 100.0 * containerWidth - w / 2.0, y, w, h)
  }

  /** The AABB test: both the horizontal and the vertical ranges intersect. */
  predicate Overlap(a: Box, b: Box)
  {
    a.left < b.left + b.width && a.left + a.width > b.left &&
    a.top < b.top + b.height && a.top + a.height > b.top
  }

  /** The pixel (px, py) lies strictly inside box b. */
  predicate Inside(px: real, py: real, b: Box)
  {
    b.left < px < b.left + b.width && b.top < py < b.top + b.height
  }

  /** Collision of two entities given as (centre %, top, width, height); there is
      no collision while the container has not been measured. */
  function CheckCollision(container: Option<nat>,
                          x1: real, y1: real, w1: real, h1: real,
                          x2: real, y2: real, w2: real, h2: real): (hit: bool)
    ensures container.None? ==> !hit
  {
    if container.None? then false
    else
      var width := container.value as real;
      Overlap(PlaceBox(x1, y1, w1, h1, width), PlaceBox(x2, y2, w2, h2, width))
  }

  /** Swapping the two entities does not change the verdict. */
  lemma CheckCollisionSymmetric(container: Option<nat>,
                                x1: real, y1: real, w1: real, h1: real,
                                x2: real, y2: real, w2: real, h2: real)
    ensures CheckCollision(container, x1, y1, w1, h1, x2, y2, w2, h2)
        == CheckCollision(container, x2, y2, w2, h2, x1, y1, w1, h1)
  {
  }

  /** With a measured container, two entities collide exactly when their pixel
      centres are closer horizontally than half their summed widths and their
      vertical ranges intersect. */
  lemma CheckCollisionByCentres(width: nat,
                                x1: real, y1: real, w1: real, h1: real,
                                x2: real, y2: real, w2: real, h2: real)
    ensures var c1 := x1 / 100.0 * width as real;
            var c2 := x2 / 100.0 * width as real;
            CheckCollision(Some(width), x1, y1, w1, h1, x2, y2, w2, h2)
            <==> (-(w1 + w2) < 2.0 * (c1 - c2) < w1 + w2 && y1 < y2 + h2 && y2 < y1 + h1)
  {
  }

  /** For boxes of positive size, the AABB test holds exactly when some pixel
      lies strictly inside both boxes. */
  lemma OverlapIffCommonPoint(a: Box, b: Box)
    requires a.width > 0.0 && a.height > 0.0 && b.width > 0.0 && b.height > 0.0
    ensures Overlap(a, b) <==> exists px, py :: Inside(px, py, a) && Inside(px, py, b)
  {
    if Overlap(a, b) {
      var lo := if a.left < b.left then b.left else a.left;
      var hi := if a.left + a.width < b.left + b.width then a.left + a.width else b.left + b.width;
      var top := if a.top < b.top then b.top else a.top;
      var bottom := if a.top + a.height < b.top + b.height then a.top + a.height else b.top + b.height;
      assert Inside((lo + hi) / 2.0, (top + bottom) / 2.0, a);
      assert Inside((lo + hi) / 2.0, (top + bottom) / 2.0, b);
    }
  }

  /** The same, stated for two entities placed in a measured container. */
  lemma CheckCollisionIffCommonPoint(width: nat,
                                     x1: real, y1: real, w1: real, h1: real,
                                     x2: real, y2: real, w2: real, h2: real)
    requires w1 > 0.0 && h1 > 0.0 && w2 > 0.0 && h2 > 0.0
    ensures var a := PlaceBox(x1, y1, w1, h1, width as real);
            var b := PlaceBox(x2, y2, w2, h2, width as real);
            CheckCollision(Some(width), x1, y1, w1, h1, x2, y2, w2, h2)
            <==> exists px, py :: Inside(px, py, a) && Inside(px, py, b)
  {
    OverlapIffCommonPoint(PlaceBox(x1, y1, w1, h1, width as real), PlaceBox(x2, y2, w2, h2, width as real));
  }
}
