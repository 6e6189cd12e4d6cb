# Point cloud registration driver

A Dafny model of the outer registration loop of `PointCloudRegistration` in
`src/point_cloud_registration.cc`. The class aligns a moving source point cloud
onto a fixed target cloud. It keeps four pieces of state:

- a private deep copy of the caller's source cloud;
- the caller's target cloud, shared and only read;
- the current transform;
- an iteration counter.

`align()` runs rounds until `hasConverged()`, which holds exactly when the
counter equals the `n_iter` parameter. A round does four things in order:

1. It runs a radius search in the target around every source point and
   pushes `(i, j, 1)` triplets for the neighbours `j` of point `i`.
2. It builds a sparse `|source| x |target|` association matrix from those
   triplets.
3. It hands the clouds, the matrix and the parameters to the solver and
   stores the transform the solver returns.
4. It transforms the working cloud in place by that transform and adds one
   to the counter.

Files and modules:

- `clouds.dfy` (module `Clouds`): points, affine transforms, the identity,
  and the cloud object. Moving a cloud replaces each point by its image.
- `association.dfy` (module `Association`): the parameters, the radius-search
  contract, the triplet-building loop (`BuildTriplets`), Eigen's
  `setFromTriplets`, and the lemmas about the association.
- `registration.dfy` (module `Registration`): the class
  `PointCloudRegistration` with its constructor, `HasConverged`, the loop
  body `Step` and `Align`, and `Register`, which constructs and aligns.
  It also has the state functions `Round`/`Run`/`Increments` and the lemmas
  about what the loop computes.

External code becomes parameters. `Align` takes a `Library` that holds three
oracles:

- the k-d-tree radius search;
- the solver (`PointCloudRegistrationIteration` with Ceres);
- what a transform does to one point (the arithmetic of `pcl::transformPointCloud`).

The radius search is assumed to keep PCL's promises (`ValidSearch`):

- every index it returns addresses the target cloud;
- no index is returned twice;
- at most `max_nn` indices come back when `max_nn` is positive. PCL reads a
  `max_nn` of 0 as "no cap".

Three facts about the code shape the model:

- **The stored transform.** Line 56 overwrites `transformation_` with each
  round's solver output. After `n >= 1` rounds it holds the last output only
  (`RunTransformation`), while the working cloud has been moved by every
  output in turn (`RunCloud`).
- **Parameters.** The constructor validates no parameter, so the model's
  constructor accepts any parameters.
- **The k-d tree.** It is rebuilt every round over a target that never
  changes, so the model treats the search as a function of the target cloud.

## Model

| member | source | states |
|---|---|---|
| `Clouds.Apply` | src/point_cloud_registration.cc:60 | moving a cloud keeps its size and order and replaces point k by the image of point k |
| `Clouds.ApplyAllSize` | src/point_cloud_registration.cc:60 | moving a cloud by any sequence of transforms keeps its size |
| `Clouds.PointCloud.TransformInPlace` | src/point_cloud_registration.cc:60 | the cloud is its own output: its new points are the images of its old points |
| `Association.NeighbourTable` | src/point_cloud_registration.cc:29-32 | one neighbour list per source point, in source order; each list has in-range, distinct indices, at most `max_neighbours` of them when that is positive |
| `Association.BuildTriplets` | src/point_cloud_registration.cc:28-36 | the nested loop pushes exactly the rows of triplets of the neighbour table, row 0 first, each row in the order the search returned |
| `Association.AccumulateKeys` | src/point_cloud_registration.cc:37 | `setFromTriplets` stores a coefficient at (r, c) if and only if some triplet addresses (r, c) |
| `Association.AccumulateDistinct` | src/point_cloud_registration.cc:37 | if no cell is addressed twice and every value is 1, every stored coefficient is 1 |
| `Association.SetFromTriplets` | src/point_cloud_registration.cc:26-37 | the matrix has the declared source-size by target-size shape and stores only cells inside it |
| `Association.TripletsOfSound` | src/point_cloud_registration.cc:29-35 | every triplet has a row in range, value 1, and a column found by the search for that row |
| `Association.TripletsOfComplete` | src/point_cloud_registration.cc:29-35 | every neighbour j of source point i yields the triplet (i, j, 1) |
| `Association.TripletsOfSorted` | src/point_cloud_registration.cc:29-35 | triplets are appended in ascending row order |
| `Association.TripletsOfDistinct` | src/point_cloud_registration.cc:29-35 | with distinct neighbours per search, no two triplets address the same cell |
| `Association.TripletsOfRowCount` | src/point_cloud_registration.cc:29-35 | row i holds exactly as many triplets as the search returned for point i |
| `Association.AssociationShape` | src/point_cloud_registration.cc:26-38 | (i, j, v) is a triplet iff i is a source index, j a neighbour of i and v = 1; rows ascend; row i has one triplet per neighbour, so at most `max_neighbours`; every triplet fits the declared shape, and the matrix holds a 1 at exactly the neighbour pairs |
| `Registration.AssociationOf` | src/point_cloud_registration.cc:26-38 | a round's association matrix has shape cloud-size by target-size, stores (i, j) iff j is among the neighbours of point i, and every stored value is 1 |
| `Registration.PointCloudRegistration.HasConverged` | src/point_cloud_registration.cc:66-76 | holds iff the counter equals n_iter; the verbose flag, which only selects a message, does not change the result |
| `Registration.Round` | src/point_cloud_registration.cc:23-61 | one pass of the loop body stores the solver's output on this round's association, moves the cloud by exactly that transform (same size), and raises the counter by one |
| `Registration.RunLast` | src/point_cloud_registration.cc:22-62 | n + 1 rounds are n rounds followed by one more round, which is the step each further pass of the `while` loop takes |
| `Registration.RunIteration` | src/point_cloud_registration.cc:61 | n rounds raise the counter by exactly n |
| `Registration.RunConverges` | src/point_cloud_registration.cc:66-68 | from a counter c <= n_iter, the loop test fails for the states after 0 .. n_iter - c - 1 rounds and holds after n_iter - c rounds; the counter then equals n_iter |
| `Registration.RunNeverConverges` | src/point_cloud_registration.cc:68 | from a counter above n_iter (a negative n_iter with a fresh object), no number of rounds reaches `hasConverged()` |
| `Registration.RunCloud` | src/point_cloud_registration.cc:56-60 | after n rounds there are n solver outputs and the working cloud is the start cloud moved by the first, then the second, ..., then the n-th |
| `Registration.IncrementsAreStored` | src/point_cloud_registration.cc:22-62 | the k-th solver output in the sequence `RunCloud` moves the cloud by is exactly the transform stored after round k + 1, so the cloud is moved by the transform stored in round 1, then round 2, and so on |
| `Registration.RunCloudSize` | src/point_cloud_registration.cc:60 | the number of points in the working cloud never changes |
| `Registration.RunTransformation` | src/point_cloud_registration.cc:56 | zero rounds leave the state as it was; after n >= 1 rounds the stored transform is the n-th solver output alone, not a composition |
| `Registration.PointCloudRegistration.constructor` | src/point_cloud_registration.cc:11-18 | counter 0, identity transform, the given parameters, the caller's target object itself, and the source as a fresh object holding the caller's points |
| `Registration.PointCloudRegistration.Step` | src/point_cloud_registration.cc:23-61 | one pass of the loop body leaves the object at `Round` of its previous state and does not touch the target cloud's points |
| `Registration.PointCloudRegistration.Align` | src/point_cloud_registration.cc:20-64 | ends with `HasConverged()`; the new state is `n_iter - counter` rounds from the old state; the target cloud's points are unchanged |
| `Registration.Register` | src/point_cloud_registration.cc:11-64 | constructing and then aligning leaves the caller's source and target clouds untouched and ends at the state of `n_iter` rounds from (caller's points, identity, 0); with `n_iter` = 0 the transform stays identity and the working cloud equals the caller's |

## Left out

- `src/point_cloud_registration_ros.cc`: a ROS node that does parameter-server reading, PCD loading, filtering and logging, all of it I/O. It also calls a constructor signature that no longer exists.
- The k-d tree radius search: it is the `search` oracle. That each returned neighbour lies within `radius` and the order in which neighbours come back are not modelled, because they rest on FLANN's floating-point distances.
- The solver (`PointCloudRegistrationIteration`, the Student-t weights, the quaternion manifold, the Ceres options and summary): it is the `solve` oracle of (source, target, association, parameters). Its source is not part of this model.
- The arithmetic of `pcl::transformPointCloud`: it is the per-point `move` oracle, because it is floating-point. Only the point coordinates of a cloud are modelled, not PCL's header, width or height.
- `Registration.PointCloudRegistration.Align`: requires the counter not to exceed `n_iter`. Otherwise the C++ loop would run forever, since its `==` test never fires (`RunNeverConverges`). The counter's endless growth and its eventual `int` overflow are not modelled.
- `Registration.Register`: requires `n_iter >= 0` for the same reason: from a fresh object with a negative `n_iter` the C++ loop never ends (`RunNeverConverges`).
- `Registration.PointCloudRegistration.Align`: also requires a non-empty target cloud whenever the working cloud is non-empty (the same requirement is on `Step`). PCL cannot build a k-d tree over an empty cloud, so in that case a C++ round never reaches the solver. The model does not say what PCL then does.
- `Registration.Register`: requires a non-empty target whenever the caller's source is non-empty, for the same reason as `Align`.
- Integer widths: the cast of the `size_t` loop index to `int` in each triplet, and the `int` counter, are modelled as unbounded integers.
- `makeCompressed` changes only the matrix's storage layout, so it is left out.
- The verbose output of `align()` and `hasConverged()`: printing only.
- `dof` is only passed on to the solver. The Gaussian setting uses a floating-point infinity there, which `real` cannot represent, so `dof` is a value the model never interprets.
