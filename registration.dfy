/**
 The registration driver: `PointCloudRegistration` keeps a private copy of
 the source cloud, a shared read-only target cloud, the current transform and
 an iteration counter, and `Align` repeats rounds until the counter reaches
 the iteration budget. A round builds the data association from radius
 searches, hands it to the solver, stores the solver's transform and moves
 the working cloud by it.

 The solver (`PointCloudRegistrationIteration` driven by Ceres) and the
 per-point transform are oracles in a `Library`; `Round` and `Run` say, as
 functions of the state, what one round and `n` rounds do, and the lemmas
 below state what the loop computes.
 */
module Registration {
  import opened Clouds
  import opened Association

  /** `PointCloudRegistrationIteration` + `solve` + `transformation()`: (source, target, association, params) to a transform. */
  type Solver = (seq<Point>, seq<Point>, SparseMatrix, Params) -> Transform

  /** The foreign code one round calls. */
  datatype Library = Library(search: RadiusSearch, solve: Solver, move: PointMap)

  ghost predicate ValidLibrary(lib: Library)
  {
    ValidSearch(lib.search)
  }

  /** The observable state of a registration: working cloud, transform, counter. */
  datatype State = State(cloud: seq<Point>, transformation: Transform, iteration: int)

  /** `hasConverged()` on a state. */
  predicate Converged(s: State, params: Params)
  {
    s.iteration == params.nIter
  }

  /**
   The data association of a round: a `|cloud| x |target|` matrix with a 1 at
   `(i, j)` exactly when `j` is among the neighbours found for point `i`, and
   nothing else stored.
   */
  function AssociationOf(cloud: seq<Point>, target: seq<Point>, params: Params, search: RadiusSearch): (m: SparseMatrix)
    requires ValidSearch(search)
    ensures m.rows == |cloud| && m.cols == |target|
    ensures forall i, j :: (i, j) in m.entries <==>
      0 <= i < |cloud| && j in search(target, cloud[i], params.radius, params.maxNeighbours)
    ensures forall key :: key in m.entries ==> m.entries[key] == 1
  {
    var table := NeighbourTable(search, cloud, target, params);
    AssociationShape(table, |target|, params.maxNeighbours);
    SetFromTriplets(|cloud|, |target|, TripletsOf(table))
  }

  /** The transform the solver returns in the round that starts from `s`. */
  function Increment(s: State, target: seq<Point>, params: Params, lib: Library): Transform
    requires ValidLibrary(lib)
  {
    lib.solve(s.cloud, target, AssociationOf(s.cloud, target, params, lib.search), params)
  }

  /**
   One pass of the loop body: store the solver's transform, move the cloud by
   it, count. The cloud is moved by exactly the transform that is stored, keeps
   its size, and the counter goes up by one.
   */
  function Round(s: State, target: seq<Point>, params: Params, lib: Library): (r: State)
    requires ValidLibrary(lib)
    ensures r.transformation == Increment(s, target, params, lib)
    ensures r.cloud == Apply(lib.move, r.transformation, s.cloud) && |r.cloud| == |s.cloud|
    ensures r.iteration == s.iteration + 1
  {
    var t := Increment(s, target, params, lib);
    State(Apply(lib.move, t, s.cloud), t, s.iteration + 1)
  }

  /** `n` passes of the loop body. */
  function Run(s: State, target: seq<Point>, params: Params, lib: Library, n: nat): State
    requires ValidLibrary(lib)
    decreases n
  {
    if n == 0 then s else Run(Round(s, target, params, lib), target, params, lib, n - 1)
  }

  /** The solver's transforms of the first `n` rounds, in order. */
  function Increments(s: State, target: seq<Point>, params: Params, lib: Library, n: nat): seq<Transform>
    requires ValidLibrary(lib)
    decreases n
  {
    if n == 0 then [] else [Increment(s, target, params, lib)] + Increments(Round(s, target, params, lib), target, params, lib, n - 1)
  }

  /** `n + 1` rounds are `n` rounds followed by one more: the loop's step. */
  lemma {:induction false} RunLast(s: State, target: seq<Point>, params: Params, lib: Library, n: nat)
    requires ValidLibrary(lib)
    ensures Run(s, target, params, lib, n + 1) == Round(Run(s, target, params, lib, n), target, params, lib)
    decreases n
  {
    var next := Round(s, target, params, lib);
    assert Run(s, target, params, lib, n + 1) == Run(next, target, params, lib, n);
    if n > 0 {
      RunLast(next, target, params, lib, n - 1);
      assert Run(s, target, params, lib, n) == Run(next, target, params, lib, n - 1);
    }
  }

  /** Every round adds one to the counter. */
  lemma {:induction false} RunIteration(s: State, target: seq<Point>, params: Params, lib: Library, n: nat)
    requires ValidLibrary(lib)
    ensures Run(s, target, params, lib, n).iteration == s.iteration + n
    decreases n
  {
    if n > 0 {
      RunIteration(Round(s, target, params, lib), target, params, lib, n - 1);
    }
  }

  /**
   From a counter at most `n_iter`, the loop test fails for the first
   `n_iter - counter` states and holds after that many rounds: the body runs
   exactly that many times and ends with the counter at `n_iter`.
   */
  lemma RunConverges(s: State, target: seq<Point>, params: Params, lib: Library)
    requires ValidLibrary(lib)
    requires s.iteration <= params.nIter
    ensures Converged(Run(s, target, params, lib, params.nIter - s.iteration), params)
    ensures Run(s, target, params, lib, params.nIter - s.iteration).iteration == params.nIter
    ensures forall k: nat :: k < params.nIter - s.iteration ==> !Converged(Run(s, target, params, lib, k), params)
  {
    RunIteration(s, target, params, lib, params.nIter - s.iteration);
    forall k: nat | k < params.nIter - s.iteration ensures !Converged(Run(s, target, params, lib, k), params) {
      RunIteration(s, target, params, lib, k);
    }
  }

  /** From a counter already past `n_iter` (say `n_iter` negative and counter 0) no number of rounds converges. */
  lemma RunNeverConverges(s: State, target: seq<Point>, params: Params, lib: Library)
    requires ValidLibrary(lib)
    requires s.iteration > params.nIter
    ensures forall k: nat :: !Converged(Run(s, target, params, lib, k), params)
  {
    forall k: nat ensures !Converged(Run(s, target, params, lib, k), params) {
      RunIteration(s, target, params, lib, k);
    }
  }

  /**
   After `n` rounds there were `n` solver outputs, and the working cloud is the
   starting cloud moved by the first, then the second, ..., then the last.
   */
  lemma {:induction false} RunCloud(s: State, target: seq<Point>, params: Params, lib: Library, n: nat)
    requires ValidLibrary(lib)
    ensures |Increments(s, target, params, lib, n)| == n
    ensures Run(s, target, params, lib, n).cloud == ApplyAll(lib.move, Increments(s, target, params, lib, n), s.cloud)
    decreases n
  {
    if n > 0 {
      var ts := Increments(s, target, params, lib, n);
      RunCloud(Round(s, target, params, lib), target, params, lib, n - 1);
      assert ts[1..] == Increments(Round(s, target, params, lib), target, params, lib, n - 1);
    }
  }

  /**
   The `k`-th solver output is the transform stored by round `k + 1`, so the
   working cloud after `n` rounds is the start cloud moved by the transform
   stored in round 1, then round 2, ..., then round `n`.
   */
  lemma {:induction false} IncrementsAreStored(s: State, target: seq<Point>, params: Params, lib: Library, n: nat, k: nat)
    requires ValidLibrary(lib) && k < n
    ensures |Increments(s, target, params, lib, n)| == n
    ensures Increments(s, target, params, lib, n)[k] == Run(s, target, params, lib, k + 1).transformation
    decreases n
  {
    RunCloud(s, target, params, lib, n);
    var next := Round(s, target, params, lib);
    if k > 0 {
      IncrementsAreStored(next, target, params, lib, n - 1, k - 1);
      RunCloud(next, target, params, lib, n - 1);
      assert Increments(s, target, params, lib, n)[k] == Increments(next, target, params, lib, n - 1)[k - 1];
      assert Run(s, target, params, lib, k + 1) == Run(next, target, params, lib, k);
    }
  }

  /** The number of points never changes. */
  lemma RunCloudSize(s: State, target: seq<Point>, params: Params, lib: Library, n: nat)
    requires ValidLibrary(lib)
    ensures |Run(s, target, params, lib, n).cloud| == |s.cloud|
  {
    RunCloud(s, target, params, lib, n);
    ApplyAllSize(lib.move, Increments(s, target, params, lib, n), s.cloud);
  }

  /**
   The stored transform is overwritten, not composed: after no round it is
   the starting one, after `n >= 1` rounds it is the last solver output alone.
   */
  lemma {:induction false} RunTransformation(s: State, target: seq<Point>, params: Params, lib: Library, n: nat)
    requires ValidLibrary(lib)
    ensures n == 0 ==> Run(s, target, params, lib, n) == s
    ensures n >= 1 ==> (|Increments(s, target, params, lib, n)| == n &&
                        Run(s, target, params, lib, n).transformation == Increments(s, target, params, lib, n)[n - 1])
    decreases n
  {
    if n >= 1 {
      RunCloud(s, target, params, lib, n);
      var next := Round(s, target, params, lib);
      if n > 1 {
        RunTransformation(next, target, params, lib, n - 1);
        RunCloud(next, target, params, lib, n - 1);
        assert Increments(s, target, params, lib, n)[n - 1] == Increments(next, target, params, lib, n - 1)[n - 2];
      }
    }
  }

  class PointCloudRegistration {
    /** The private working copy of the source cloud. */
    const sourceCloud: PointCloud
    /** The caller's target cloud, shared and only read. */
    const targetCloud: PointCloud
    const parameters: Params
    var transformation: Transform
    var currentIteration: int

    ghost predicate Valid()
      reads this
    {
      sourceCloud != targetCloud
    }

    function CurrentState(): State
      reads this, sourceCloud
    {
      State(sourceCloud.points, transformation, currentIteration)
    }

    /** The working cloud is a fresh deep copy; the target is the caller's object itself. */
    constructor (source: PointCloud, target: PointCloud, parameters: Params)
      ensures Valid()
      ensures fresh(sourceCloud) && sourceCloud.points == source.points
      ensures targetCloud == target && this.parameters == parameters
      ensures transformation == Identity && currentIteration == 0
    {
      this.parameters := parameters;
      targetCloud := target;
      transformation := Identity;
      currentIteration := 0;
      sourceCloud := new PointCloud(source.points);
    }

    /**
     `hasConverged()`: the state-level test `Converged` on the current state.
     It holds exactly when the counter has reached the iteration budget, and
     the verbose flag (which only selects a message) does not change it.
     */
    predicate HasConverged()
      reads this, sourceCloud
      ensures HasConverged() <==> currentIteration == parameters.nIter
      ensures HasConverged() == Converged(CurrentState(), parameters.(verbose := !parameters.verbose))
    {
      Converged(CurrentState(), parameters)
    }

    /**
     One pass of the loop body of `align()`: build the association, solve,
     store the transform, move the working cloud in place by it and count.
     */
    method Step(lib: Library)
      requires Valid() && ValidLibrary(lib)
      requires |targetCloud.points| > 0 || |sourceCloud.points| == 0
      modifies this, sourceCloud
      ensures Valid()
      ensures CurrentState() == Round(old(CurrentState()), targetCloud.points, parameters, lib)
      ensures targetCloud.points == old(targetCloud.points)
    {
      ghost var pre := CurrentState();
      var triplets := BuildTriplets(lib.search, sourceCloud.points, targetCloud.points, parameters);
      TripletsInShape(NeighbourTable(lib.search, sourceCloud.points, targetCloud.points, parameters),
                      |targetCloud.points|, parameters.maxNeighbours);
      var association := SetFromTriplets(|sourceCloud.points|, |targetCloud.points|, triplets);
      assert association == AssociationOf(sourceCloud.points, targetCloud.points, parameters, lib.search);
      transformation := lib.solve(sourceCloud.points, targetCloud.points, association, parameters);
      sourceCloud.TransformInPlace(lib.move, transformation);
      currentIteration := currentIteration + 1;
      assert CurrentState() == Round(pre, targetCloud.points, parameters, lib);
    }

    /**
     Runs rounds until `HasConverged()`. The state afterwards is that of
     `n_iter - counter` rounds from the state before; the target cloud is
     left as it was.
     */
    method Align(lib: Library)
      requires Valid() && ValidLibrary(lib)
      requires currentIteration <= parameters.nIter
      requires |targetCloud.points| > 0 || |sourceCloud.points| == 0
      modifies this, sourceCloud
      ensures Valid() && HasConverged()
      ensures CurrentState() == Run(old(CurrentState()), targetCloud.points, parameters, lib, parameters.nIter - old(currentIteration))
      ensures targetCloud.points == old(targetCloud.points)
    {
      ghost var start := CurrentState();
      while currentIteration != parameters.nIter
        invariant start.iteration <= currentIteration <= parameters.nIter
        invariant targetCloud.points == old(targetCloud.points)
        invariant |targetCloud.points| > 0 || |sourceCloud.points| == 0
        invariant CurrentState() == Run(start, targetCloud.points, parameters, lib, currentIteration - start.iteration)
        decreases parameters.nIter - currentIteration
      {
        ghost var done := currentIteration - start.iteration;
        Step(lib);
        RunLast(start, targetCloud.points, parameters, lib, done);
      }
    }
  }

  /**
   A caller constructs a registration and aligns it: the caller's clouds are
   untouched, the registration ends at the state of `n_iter` rounds from
   (caller's source, identity, 0), and with `n_iter == 0` that is the
   identity transform and the unchanged source.
   */
  method Register(source: PointCloud, target: PointCloud, parameters: Params, lib: Library)
    returns (registration: PointCloudRegistration)
    requires ValidLibrary(lib)
    requires parameters.nIter >= 0
    requires |target.points| > 0 || |source.points| == 0
    ensures fresh(registration) && fresh(registration.sourceCloud)
    ensures registration.targetCloud == target && registration.HasConverged()
    ensures registration.CurrentState() == Run(State(source.points, Identity, 0), target.points, parameters, lib, parameters.nIter)
    ensures parameters.nIter == 0 ==> registration.transformation == Identity && registration.sourceCloud.points == source.points
    ensures source.points == old(source.points) && target.points == old(target.points)
  {
    registration := new PointCloudRegistration(source, target, parameters);
    ghost var start := registration.CurrentState();
    assert start == State(source.points, Identity, 0);
    registration.Align(lib);
    assert registration.CurrentState() == Run(start, target.points, parameters, lib, parameters.nIter);
  }
}
