/**
 Points, rigid transforms and point clouds.

 A point is a triple of coordinates and a transform is an affine map (a 3x3
 linear part and a translation, as an Eigen `Affine3d` stores it). What a
 transform does to a point is computed by PCL in floating point; here it is
 an oracle, `PointMap`, and a cloud is moved by applying that oracle to each
 point in turn, keeping order and size.
 */
module Clouds {

  datatype Vector3 = Vector3(x: real, y: real, z: real)

  datatype Point = Point(x: real, y: real, z: real)

  /** An affine transform: rows of the linear part and a translation. */
  datatype Transform = Affine(row0: Vector3, row1: Vector3, row2: Vector3, translation: Vector3)

  /** `Eigen::Affine3d::Identity()`: unit linear part, zero translation. */
  const Identity: Transform :=
    Affine(Vector3(1.0, 0.0, 0.0), Vector3(0.0, 1.0, 0.0), Vector3(0.0, 0.0, 1.0), Vector3(0.0, 0.0, 0.0))

  /** The action of a transform on one point (PCL's per-point arithmetic). */
  type PointMap = (Transform, Point) -> Point

  /** `pcl::transformPointCloud`: every point is replaced by its image, in place. */
  function Apply(move: PointMap, t: Transform, cloud: seq<Point>): (r: seq<Point>)
    ensures |r| == |cloud|
    ensures forall k :: 0 <= k < |cloud| ==> r[k] == move(t, cloud[k])
  {
    seq(|cloud|, k requires 0 <= k < |cloud| => move(t, cloud[k]))
  }

  /** Applies `ts[0]`, then `ts[1]`, ... to `cloud`, each to the result of the previous one. */
  function ApplyAll(move: PointMap, ts: seq<Transform>, cloud: seq<Point>): seq<Point>
    decreases |ts|
  {
    if ts == [] then cloud else ApplyAll(move, ts[1..], Apply(move, ts[0], cloud))
  }

  lemma {:induction false} ApplyAllSize(move: PointMap, ts: seq<Transform>, cloud: seq<Point>)
    ensures |ApplyAll(move, ts, cloud)| == |cloud|
    decreases |ts|
  {
    if ts != [] {
      ApplyAllSize(move, ts[1..], Apply(move, ts[0], cloud));
    }
  }

  /** A `pcl::PointCloud` behind a shared pointer: an object whose points can be overwritten. */
  class PointCloud {
    var points: seq<Point>

    constructor (points: seq<Point>)
      ensures this.points == points
    {
      this.points := points;
    }

    /** `transformPointCloud(*c, *c, t)`: the cloud is its own output. */
    method TransformInPlace(move: PointMap, t: Transform)
      modifies this
      ensures points == Apply(move, t, old(points))
      ensures |points| == |old(points)|
    {
      points := Apply(move, t, points);
    }
  }
}
