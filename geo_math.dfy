/**
 * GeoMath: the haversine great-circle distance and the erf-based normal CDF
 * used by every analysis (services/spatialAnalysis.ts, lines 15-43).
 *
 * `Math.sin`, `Math.cos`, `Math.atan2`, `Math.sqrt` and `Math.exp` have no
 * definition here: they are handed in as a `Trig` bundle, and only the few laws
 * collected in `Lawful` are assumed of them by the lemmas that need them. Every
 * arithmetic step around those calls is written out as the source writes it.
 */
module GeoMath {
  import opened Js

  datatype LatLng = LatLng(lat: real, lng: real)

  /** The `Math` functions the analysis calls, as opaque real functions. */
  datatype Trig = Trig(
    sin: real -> real,
    cos: real -> real,
    atan2: (real, real) -> real,
    sqrt: real -> real,
    exp: real -> real)
  {
    // Every use goes through these members, so that all of them read the
    // functions the same way.
    function Sin(x: real): real { sin(x) }
    function Cos(x: real): real { cos(x) }
    function Atan2(y: real, x: real): real { atan2(y, x) }
    function Sqrt(x: real): real { sqrt(x) }
    function Exp(x: real): real { exp(x) }
  }

  /** The laws of the `Math` functions that the proofs rely on, and no more. */
  ghost predicate Lawful(m: Trig) {
    && m.Sin(0.0) == 0.0
    && (forall x, y {:trigger m.Sin(x), m.Sin(y)} :: y == -x ==> m.Sin(y) == -m.Sin(x))
    && m.Sqrt(0.0) == 0.0
    && m.Sqrt(1.0) == 1.0
    && (forall x :: m.Sqrt(x) >= 0.0)
    && (forall x :: x > 0.0 ==> m.Sqrt(x) > 0.0)
    && (forall x :: x > 0.0 ==> m.Atan2(0.0, x) == 0.0)
    && (forall y, x :: y >= 0.0 ==> m.Atan2(y, x) >= 0.0)
    && (forall x :: m.Exp(x) > 0.0)
    && (forall x :: x <= 0.0 ==> m.Exp(x) <= 1.0)
  }

  const EARTH_RADIUS: real := 6371000.0
  const PI: real := 3.141592653589793

  function ToRad(d: real): real { d * PI / 180.0 }

  /** The haversine term `val` of two positions (the square of the half-chord). */
  function HalfChord(m: Trig, aLat: real, aLng: real, bLat: real, bLng: real): real {
    var sinDlat := m.Sin(ToRad(bLat - aLat) / 2.0);
    var sinDlng := m.Sin(ToRad(bLng - aLng) / 2.0);
    sinDlat * sinDlat + m.Cos(ToRad(aLat)) * m.Cos(ToRad(bLat)) * sinDlng * sinDlng
  }

  /** haversineDistance: great-circle distance in meters on a sphere of radius 6 371 000 m. */
  function Haversine(m: Trig, aLat: real, aLng: real, bLat: real, bLng: real): real {
    var v := HalfChord(m, aLat, aLng, bLat, bLng);
    EARTH_RADIUS * (2.0 * m.Atan2(m.Sqrt(v), m.Sqrt(1.0 - v)))
  }

  function Distance(m: Trig, a: LatLng, b: LatLng): real {
    Haversine(m, a.lat, a.lng, b.lat, b.lng)
  }

  /** A distance is never negative. */
  lemma HaversineNonNegative(m: Trig, aLat: real, aLng: real, bLat: real, bLng: real)
    requires Lawful(m)
    ensures Haversine(m, aLat, aLng, bLat, bLng) >= 0.0
  {
    var v := HalfChord(m, aLat, aLng, bLat, bLng);
    assert m.Sqrt(v) >= 0.0;
    assert m.Atan2(m.Sqrt(v), m.Sqrt(1.0 - v)) >= 0.0;
  }

  /** A position is at distance 0 from itself. */
  lemma HaversineSelf(m: Trig, lat: real, lng: real)
    requires Lawful(m)
    ensures Haversine(m, lat, lng, lat, lng) == 0.0
  {
    assert ToRad(lat - lat) / 2.0 == 0.0;
    assert ToRad(lng - lng) / 2.0 == 0.0;
    assert HalfChord(m, lat, lng, lat, lng) == 0.0;
    assert m.Sqrt(1.0 - 0.0) == 1.0;
  }

  /** The distance from a to b is the distance from b to a. */
  lemma HaversineSymmetric(m: Trig, aLat: real, aLng: real, bLat: real, bLng: real)
    requires Lawful(m)
    ensures Haversine(m, aLat, aLng, bLat, bLng) == Haversine(m, bLat, bLng, aLat, aLng)
  {
    var x := ToRad(bLat - aLat) / 2.0;
    var y := ToRad(bLng - aLng) / 2.0;
    assert ToRad(aLat - bLat) / 2.0 == -x;
    assert ToRad(aLng - bLng) / 2.0 == -y;
    assert m.Sin(-x) == -m.Sin(x);
    assert m.Sin(-y) == -m.Sin(y);
    assert HalfChord(m, aLat, aLng, bLat, bLng) == HalfChord(m, bLat, bLng, aLat, aLng);
  }

  lemma DistanceNonNegative(m: Trig, a: LatLng, b: LatLng)
    requires Lawful(m)
    ensures Distance(m, a, b) >= 0.0
  {
    HaversineNonNegative(m, a.lat, a.lng, b.lat, b.lng);
  }

  lemma DistanceSelf(m: Trig, a: LatLng)
    requires Lawful(m)
    ensures Distance(m, a, a) == 0.0
  {
    HaversineSelf(m, a.lat, a.lng);
  }

  // ------------------------------------------------------------ normal CDF

  const A1: real := 0.254829592
  const A2: real := -0.284496736
  const A3: real := 1.421413741
  const A4: real := -1.453152027
  const A5: real := 1.061405429
  const P: real := 0.3275911

  /** `t` of the erf approximation: 1 / (1 + 0.3275911 |z|), always in (0, 1]. */
  function ErfT(z: real): (t: real)
    ensures 0.0 < t <= 1.0
  {
    1.0 / (1.0 + P * AbsReal(z))
  }

  /** The polynomial exactly as the source nests it: ((((a5 t + a4) t + a3) t + a2) t + a1). */
  function ErfPoly(t: real): real {
    (((A5 * t + A4) * t + A3) * t + A2) * t + A1
  }

  /** stdNormalCDF as written: 0.5 (1 + sign(z) (1 - poly(t) e^(-z^2))). */
  function StdNormalCdf(m: Trig, z: real): real {
    var erf := 1.0 - ErfPoly(ErfT(z)) * m.Exp(-z * z);
    var sign := if z < 0.0 then -1.0 else 1.0;
    0.5 * (1.0 + sign * erf)
  }

  /** The two-tailed p-value of a z-score: 2 (1 - CDF(|z|)). */
  function PValue(m: Trig, z: real): real {
    2.0 * (1.0 - StdNormalCdf(m, AbsReal(z)))
  }

  /** On (0, 1] the source's polynomial stays strictly between 0 and 1. */
  lemma ErfPolyBounds(t: real)
    requires 0.0 < t <= 1.0
    ensures 0.0 < ErfPoly(t) <= 1.0
  {
    var q := (A5 * t + A4) * t + A3;
    // the inner quadratic is at least 0.9: complete the square around t = 0.6845
    var d := t - 0.6845;
    assert q == A5 * d * d + (2.0 * A5 * 0.6845 + A4) * d + (A5 * 0.6845 * 0.6845 + A4 * 0.6845 + A3);
    assert A5 * d * d >= 0.0;
    assert q >= 0.9;
    // lower bound: poly >= 0.9 t^2 + a2 t + a1 > 0
    assert q * t * t >= 0.9 * t * t;
    var e := t - 0.158;
    assert 0.9 * t * t + A2 * t + A1 == 0.9 * e * e + (1.8 * 0.158 + A2) * e
      + (0.9 * 0.158 * 0.158 + A2 * 0.158 + A1);
    assert 0.9 * e * e >= 0.0;
    assert ErfPoly(t) == q * t * t + A2 * t + A1;
    // upper bound: poly(1) - poly(t) = (1 - t) r(t) with r(t) >= 0 on [0, 1]
    var r := (A2 + A3 + A4 + A5) + (A3 + A4 + A5) * t + (A4 + A5) * t * t + A5 * t * t * t;
    assert ErfPoly(1.0) - ErfPoly(t) == (1.0 - t) * r;
    assert t * t <= t;
    assert A5 * t * t * t >= 0.0;
    assert r >= 0.0;
    assert (1.0 - t) * r >= 0.0;
  }

  /**
   * Under the laws of `exp`, every p-value lies in (0, 1]. (The source never
   * leaves [0, 1] only because its polynomial stays in (0, 1] on (0, 1].)
   */
  lemma PValueInUnitInterval(m: Trig, z: real)
    requires Lawful(m)
    ensures 0.0 < PValue(m, z) <= 1.0
  {
    var a := AbsReal(z);
    var t := ErfT(a);
    ErfPolyBounds(t);
    var e := m.Exp(-a * a);
    assert 0.0 < e <= 1.0;
    var y := ErfPoly(t) * e;
    assert StdNormalCdf(m, a) == 0.5 * (1.0 + (1.0 - y));
    assert PValue(m, z) == y;
    ScaledWithin(ErfPoly(t), e);
  }

  /** Scaling a positive number by a factor in (0, 1] keeps it positive and no larger. */
  lemma ScaledWithin(x: real, f: real)
    requires 0.0 < x && 0.0 < f <= 1.0
    ensures 0.0 < x * f <= x
  {
    assert x - x * f == x * (1.0 - f);
  }
}
