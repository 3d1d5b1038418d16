/**
 * The orthorhombic periodic box and the single-shift periodic correction that
 * computeForces applies to each component of a pair displacement.
 */
module Periodic {

  datatype Vec3 = Vec3(x: real, y: real, z: real)

  /** Box bounds per axis, as in BoxDim; a usable box has hi > lo on every axis. */
  datatype BoxDim = BoxDim(xlo: real, xhi: real, ylo: real, yhi: real, zlo: real, zhi: real)
  {
    predicate Valid() {
      xhi > xlo && yhi > ylo && zhi > zlo
    }

    /** The box is centred on the origin on every axis (lo == -hi). */
    predicate Centred() {
      xlo == -xhi && ylo == -yhi && zlo == -zhi
    }
  }

  /** Every component of d lies in [lo, hi) of its axis. */
  predicate InBox(box: BoxDim, d: Vec3) {
    box.xlo <= d.x < box.xhi && box.ylo <= d.y < box.yhi && box.zlo <= d.z < box.zhi
  }

  /** Every component of d is less than one box length outside [lo, hi). */
  predicate WithinOneImage(box: BoxDim, d: Vec3) {
    && box.xlo - (box.xhi - box.xlo) <= d.x < box.xhi + (box.xhi - box.xlo)
    && box.ylo - (box.yhi - box.ylo) <= d.y < box.yhi + (box.yhi - box.ylo)
    && box.zlo - (box.zhi - box.zlo) <= d.z < box.zhi + (box.zhi - box.zlo)
  }

  /**
   * One axis of the periodic correction: subtract the box length L = hi - lo
   * when d >= hi, otherwise add it when d < lo. At most one shift is made, so a
   * component more than one box length away stays outside [lo, hi).
   */
  function WrapAxis(d: real, lo: real, hi: real): (r: real)
    requires lo < hi
    ensures r == d || r == d - (hi - lo) || r == d + (hi - lo)
    ensures lo <= d < hi ==> r == d
    ensures lo - (hi - lo) <= d < hi + (hi - lo) ==> lo <= r < hi
    ensures hi + (hi - lo) <= d ==> hi <= r
    ensures d < lo - (hi - lo) ==> r < lo
  {
    if d >= hi then d - (hi - lo)
    else if d < lo then d + (hi - lo)
    else d
  }

  /** The periodic correction applied to all three components. */
  function Wrap(box: BoxDim, d: Vec3): Vec3
    requires box.Valid()
  {
    Vec3(WrapAxis(d.x, box.xlo, box.xhi), WrapAxis(d.y, box.ylo, box.yhi), WrapAxis(d.z, box.zlo, box.zhi))
  }

  /**
   * A displacement already inside the box is left alone; one less than a box
   * length outside is brought inside; anything farther stays outside, because
   * each axis is shifted at most once.
   */
  lemma WrapRange(box: BoxDim, d: Vec3)
    requires box.Valid()
    ensures InBox(box, d) ==> Wrap(box, d) == d
    ensures WithinOneImage(box, d) <==> InBox(box, Wrap(box, d))
  {
  }

  /** The squared length of a displacement. */
  function RSquared(d: Vec3): real {
    d.x * d.x + d.y * d.y + d.z * d.z
  }

  /**
   * In a box centred on the origin, wrapping -d gives the negation of wrapping
   * d, except when d wraps onto the closed lower face -h: the box is half-open,
   * so -d then wraps onto a face too, -h or h.
   */
  lemma WrapAxisMirror(d: real, h: real)
    requires 0.0 < h
    ensures WrapAxis(d, -h, h) != -h ==> WrapAxis(-d, -h, h) == -WrapAxis(d, -h, h)
    ensures WrapAxis(d, -h, h) == -h ==> WrapAxis(-d, -h, h) == -h || WrapAxis(-d, -h, h) == h
  {
  }

  /** No component of d lies on the closed lower face lo of its axis. */
  predicate OffLowerFace(box: BoxDim, d: Vec3) {
    d.x != box.xlo && d.y != box.ylo && d.z != box.zlo
  }

  /**
   * In a centred box, wrapping -d gives exactly -Wrap(d) when the wrapped d is
   * off the lower faces; on an axis where it is on the lower face -h, the
   * wrapped -d has that component at -h or h instead.
   */
  lemma WrapMirror(box: BoxDim, d: Vec3)
    requires box.Valid() && box.Centred()
    ensures var w, m := Wrap(box, d), Wrap(box, Vec3(-d.x, -d.y, -d.z));
            && (OffLowerFace(box, w) ==> m == Vec3(-w.x, -w.y, -w.z))
            && (w.x == box.xlo ==> m.x == box.xlo || m.x == box.xhi)
            && (w.y == box.ylo ==> m.y == box.ylo || m.y == box.yhi)
            && (w.z == box.zlo ==> m.z == box.zlo || m.z == box.zhi)
  {
    WrapAxisMirror(d.x, box.xhi);
    WrapAxisMirror(d.y, box.yhi);
    WrapAxisMirror(d.z, box.zhi);
  }

  /** Either way, the wrapped component of -d has the same square as that of d. */
  lemma WrapAxisMirrorSquare(d: real, lo: real, h: real)
    requires 0.0 < h && lo == -h
    ensures WrapAxis(-d, lo, h) * WrapAxis(-d, lo, h) == WrapAxis(d, lo, h) * WrapAxis(d, lo, h)
  {
    WrapAxisMirror(d, h);
    var a, b := WrapAxis(d, lo, h), WrapAxis(-d, lo, h);
    if b == -a {
      assert b * b == a * a;
    } else {
      assert a == -h && (b == -h || b == h);
      assert b * b == h * h == a * a;
    }
  }

  /** Wrapping -d and wrapping d give the same squared distance in a centred box. */
  lemma WrapMirrorDistance(box: BoxDim, d: Vec3)
    requires box.Valid() && box.Centred()
    ensures RSquared(Wrap(box, Vec3(-d.x, -d.y, -d.z))) == RSquared(Wrap(box, d))
  {
    var w, m := Wrap(box, d), Wrap(box, Vec3(-d.x, -d.y, -d.z));
    assert m.x * m.x == w.x * w.x by { WrapAxisMirrorSquare(d.x, box.xlo, box.xhi); }
    assert m.y * m.y == w.y * w.y by { WrapAxisMirrorSquare(d.y, box.ylo, box.yhi); }
    assert m.z * m.z == w.z * w.z by { WrapAxisMirrorSquare(d.z, box.zlo, box.zhi); }
    SameSquares(m, w);
  }

  lemma SameSquares(u: Vec3, v: Vec3)
    requires u.x * u.x == v.x * v.x && u.y * u.y == v.y * v.y && u.z * u.z == v.z * v.z
    ensures RSquared(u) == RSquared(v)
  {
  }
}
