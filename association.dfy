/**
 The data association of one registration round: for every source point a
 radius search over the target cloud, turned into a list of `(i, j, 1)`
 triplets and then into a sparse `|source| x |target|` integer matrix.

 The radius search itself (a FLANN k-d tree) is an oracle. All the model
 relies on is what PCL promises of `radiusSearch`: the indices it returns
 address the target cloud, none is returned twice, and when `max_nn` is
 positive at most `max_nn` of them are returned (a `max_nn` of 0 means no cap).
 */
module Association {
  import opened Clouds

  /** The registration parameters (`PointCloudRegistrationParams`). */
  datatype Params = Params(radius: real, maxNeighbours: int, nIter: int, dof: real, verbose: bool)

  /** `radiusSearch` over a target cloud: (target, query point, radius, max_nn) to target indices. */
  type RadiusSearch = (seq<Point>, Point, real, int) -> seq<int>

  /** `Eigen::Triplet<int>(row, col, value)`. */
  datatype Triplet = Triplet(row: int, col: int, value: int)

  /** `Eigen::SparseMatrix<int>`: its declared shape and its stored coefficients. */
  datatype SparseMatrix = SparseMatrix(rows: nat, cols: nat, entries: map<(int, int), int>)

  /** What a radius search over a target of `targetSize` points may return. */
  predicate IsNeighbourList(nb: seq<int>, targetSize: nat, maxNn: int)
  {
    && (forall k :: 0 <= k < |nb| ==> 0 <= nb[k] < targetSize)
    && (forall a, b :: 0 <= a < b < |nb| ==> nb[a] != nb[b])
    && (maxNn > 0 ==> |nb| <= maxNn)
  }

  /** The oracle keeps PCL's promises for every target, query, radius and cap. */
  ghost predicate ValidSearch(search: RadiusSearch)
  {
    forall target, q, radius, maxNn :: IsNeighbourList(search(target, q, radius, maxNn), |target|, maxNn)
  }

  /** One neighbour list per source point. */
  predicate ValidTable(table: seq<seq<int>>, targetSize: nat, maxNn: int)
  {
    forall i :: 0 <= i < |table| ==> IsNeighbourList(table[i], targetSize, maxNn)
  }

  /** The neighbour list the search returns for every source point, in source order. */
  function NeighbourTable(search: RadiusSearch, source: seq<Point>, target: seq<Point>, params: Params): (table: seq<seq<int>>)
    requires ValidSearch(search)
    ensures |table| == |source|
    ensures ValidTable(table, |target|, params.maxNeighbours)
  {
    seq(|source|, i requires 0 <= i < |source| => search(target, source[i], params.radius, params.maxNeighbours))
  }

  /** The triplets pushed for source point `i` with neighbours `nb`. */
  function RowTriplets(i: int, nb: seq<int>): (r: seq<Triplet>)
    ensures |r| == |nb|
    ensures forall k :: 0 <= k < |nb| ==> r[k] == Triplet(i, nb[k], 1)
  {
    seq(|nb|, k requires 0 <= k < |nb| => Triplet(i, nb[k], 1))
  }

  /** All rows' triplets, row 0 first. */
  function TripletsOf(table: seq<seq<int>>): seq<Triplet>
    decreases |table|
  {
    if table == [] then []
    else TripletsOf(table[..|table| - 1]) + RowTriplets(|table| - 1, table[|table| - 1])
  }

  /** The triplet-building loop of one round (the nested `for` loops with `push_back`). */
  method BuildTriplets(search: RadiusSearch, source: seq<Point>, target: seq<Point>, params: Params)
    returns (triplets: seq<Triplet>)
    requires ValidSearch(search)
    ensures triplets == TripletsOf(NeighbourTable(search, source, target, params))
  {
    ghost var table := NeighbourTable(search, source, target, params);
    triplets := [];
    for i := 0 to |source|
      invariant triplets == TripletsOf(table[..i])
    {
      var neighbours := search(target, source[i], params.radius, params.maxNeighbours);
      for k := 0 to |neighbours|
        invariant triplets == TripletsOf(table[..i]) + RowTriplets(i, neighbours[..k])
      {
        triplets := triplets + [Triplet(i, neighbours[k], 1)];
      }
      assert neighbours[..|neighbours|] == neighbours;
      assert table[..i + 1][..i] == table[..i];
    }
    assert table[..|source|] == table;
  }

  /** Every triplet lies inside a `rows x cols` matrix. */
  predicate InShape(ts: seq<Triplet>, rows: nat, cols: nat)
  {
    forall k :: 0 <= k < |ts| ==> 0 <= ts[k].row < rows && 0 <= ts[k].col < cols
  }

  /** No two triplets address the same coefficient. */
  predicate DistinctCells(ts: seq<Triplet>)
  {
    forall a, b :: 0 <= a < b < |ts| ==> ts[a].row != ts[b].row || ts[a].col != ts[b].col
  }

  /** The coefficients `setFromTriplets` stores: triplets on the same cell are summed. */
  function Accumulate(ts: seq<Triplet>): map<(int, int), int>
    decreases |ts|
  {
    if ts == [] then map[]
    else
      var m := Accumulate(ts[..|ts| - 1]);
      var t := ts[|ts| - 1];
      m[(t.row, t.col) := (if (t.row, t.col) in m then m[(t.row, t.col)] else 0) + t.value]
  }

  /** A coefficient is stored exactly where some triplet addresses it. */
  lemma {:induction false} AccumulateKeys(ts: seq<Triplet>)
    ensures forall r, c :: (r, c) in Accumulate(ts) <==> exists k :: 0 <= k < |ts| && ts[k].row == r && ts[k].col == c
    decreases |ts|
  {
    if ts != [] {
      var init := ts[..|ts| - 1];
      AccumulateKeys(init);
      forall r, c ensures (r, c) in Accumulate(ts) <==> exists k :: 0 <= k < |ts| && ts[k].row == r && ts[k].col == c {
        if (r, c) in Accumulate(init) {
          var k :| 0 <= k < |init| && init[k].row == r && init[k].col == c;
          assert ts[k] == init[k];
        }
        if exists k :: 0 <= k < |ts| && ts[k].row == r && ts[k].col == c {
          var k :| 0 <= k < |ts| && ts[k].row == r && ts[k].col == c;
          if k < |init| {
            assert init[k] == ts[k];
          }
        }
      }
    }
  }

  /** With no cell addressed twice and every value 1, every stored coefficient is 1. */
  lemma {:induction false} AccumulateDistinct(ts: seq<Triplet>)
    requires DistinctCells(ts)
    requires forall k :: 0 <= k < |ts| ==> ts[k].value == 1
    ensures forall key :: key in Accumulate(ts) ==> Accumulate(ts)[key] == 1
    decreases |ts|
  {
    if ts != [] {
      var init := ts[..|ts| - 1];
      var t := ts[|ts| - 1];
      AccumulateDistinct(init);
      AccumulateKeys(init);
      assert (t.row, t.col) !in Accumulate(init) by {
        forall k | 0 <= k < |init| ensures init[k].row != t.row || init[k].col != t.col {
          assert init[k] == ts[k];
        }
      }
    }
  }

  /** `setFromTriplets` on a matrix of the declared shape. */
  function SetFromTriplets(rows: nat, cols: nat, ts: seq<Triplet>): (m: SparseMatrix)
    requires InShape(ts, rows, cols)
    ensures m.rows == rows && m.cols == cols
    ensures forall r, c :: (r, c) in m.entries ==> 0 <= r < rows && 0 <= c < cols
  {
    AccumulateKeys(ts);
    SparseMatrix(rows, cols, Accumulate(ts))
  }

  /** Every triplet of row `i` carries value 1 and a neighbour of `i`; rows are in range. */
  lemma {:induction false} TripletsOfSound(table: seq<seq<int>>)
    ensures forall k :: 0 <= k < |TripletsOf(table)| ==>
      var t := TripletsOf(table)[k];
      0 <= t.row < |table| && t.value == 1 && t.col in table[t.row]
    decreases |table|
  {
    if table != [] {
      var init := table[..|table| - 1];
      var last := |table| - 1;
      TripletsOfSound(init);
      var ts := TripletsOf(table);
      var row := RowTriplets(last, table[last]);
      forall k | 0 <= k < |ts|
        ensures 0 <= ts[k].row < |table| && ts[k].value == 1 && ts[k].col in table[ts[k].row]
      {
        if k < |TripletsOf(init)| {
          assert ts[k] == TripletsOf(init)[k];
          assert init[ts[k].row] == table[ts[k].row];
        } else {
          assert ts[k] == row[k - |TripletsOf(init)|];
        }
      }
    }
  }

  /** With in-range neighbour lists, every triplet fits the `|table| x targetSize` shape. */
  lemma TripletsInShape(table: seq<seq<int>>, targetSize: nat, maxNn: int)
    requires ValidTable(table, targetSize, maxNn)
    ensures InShape(TripletsOf(table), |table|, targetSize)
  {
    var ts := TripletsOf(table);
    TripletsOfSound(table);
    forall k | 0 <= k < |ts| ensures 0 <= ts[k].row < |table| && 0 <= ts[k].col < targetSize {
      assert IsNeighbourList(table[ts[k].row], targetSize, maxNn);
    }
  }

  /** Every neighbour `j` of source point `i` gives the triplet `(i, j, 1)`. */
  lemma {:induction false} TripletsOfComplete(table: seq<seq<int>>, i: int, j: int)
    requires 0 <= i < |table| && j in table[i]
    ensures Triplet(i, j, 1) in TripletsOf(table)
    decreases |table|
  {
    var init := table[..|table| - 1];
    var last := |table| - 1;
    var row := RowTriplets(last, table[last]);
    if i < last {
      assert init[i] == table[i];
      TripletsOfComplete(init, i, j);
    } else {
      var k :| 0 <= k < |table[last]| && table[last][k] == j;
      assert row[k] == Triplet(i, j, 1);
    }
  }

  /** Triplets are appended in ascending row order. */
  lemma {:induction false} TripletsOfSorted(table: seq<seq<int>>)
    ensures forall a, b :: 0 <= a < b < |TripletsOf(table)| ==> TripletsOf(table)[a].row <= TripletsOf(table)[b].row
    decreases |table|
  {
    if table != [] {
      var init := table[..|table| - 1];
      TripletsOfSorted(init);
      TripletsOfSound(init);
    }
  }

  /** Distinct neighbours in each row give distinct matrix cells. */
  lemma {:induction false} TripletsOfDistinct(table: seq<seq<int>>, targetSize: nat, maxNn: int)
    requires ValidTable(table, targetSize, maxNn)
    ensures DistinctCells(TripletsOf(table))
    decreases |table|
  {
    if table != [] {
      var init := table[..|table| - 1];
      var last := |table| - 1;
      assert ValidTable(init, targetSize, maxNn) by {
        forall i | 0 <= i < |init| ensures IsNeighbourList(init[i], targetSize, maxNn) {
          assert init[i] == table[i];
        }
      }
      TripletsOfDistinct(init, targetSize, maxNn);
      TripletsOfSound(init);
      var front := TripletsOf(init);
      var row := RowTriplets(last, table[last]);
      var ts := TripletsOf(table);
      assert IsNeighbourList(table[last], targetSize, maxNn);
      forall a, b | 0 <= a < b < |ts| ensures ts[a].row != ts[b].row || ts[a].col != ts[b].col {
        if b < |front| {
          assert ts[a] == front[a] && ts[b] == front[b];
        } else if a < |front| {
          assert ts[a] == front[a] && ts[b] == row[b - |front|];
        } else {
          assert ts[a] == row[a - |front|] && ts[b] == row[b - |front|];
        }
      }
    }
  }

  /** The number of triplets in row `i`. */
  function CountRow(ts: seq<Triplet>, i: int): nat
    decreases |ts|
  {
    if ts == [] then 0 else CountRow(ts[..|ts| - 1], i) + (if ts[|ts| - 1].row == i then 1 else 0)
  }

  lemma {:induction false} CountRowAppend(a: seq<Triplet>, b: seq<Triplet>, i: int)
    ensures CountRow(a + b, i) == CountRow(a, i) + CountRow(b, i)
    decreases |b|
  {
    if b == [] {
      assert a + b == a;
    } else {
      assert (a + b)[..|a + b| - 1] == a + b[..|b| - 1];
      CountRowAppend(a, b[..|b| - 1], i);
    }
  }

  lemma {:induction false} CountRowOfRow(r: int, nb: seq<int>, i: int)
    ensures CountRow(RowTriplets(r, nb), i) == if r == i then |nb| else 0
    decreases |nb|
  {
    if nb != [] {
      assert RowTriplets(r, nb)[..|nb| - 1] == RowTriplets(r, nb[..|nb| - 1]);
      CountRowOfRow(r, nb[..|nb| - 1], i);
    }
  }

  /** Row `i` holds exactly as many triplets as the search returned for source point `i`. */
  lemma {:induction false} TripletsOfRowCount(table: seq<seq<int>>, i: int)
    requires 0 <= i < |table|
    ensures CountRow(TripletsOf(table), i) == |table[i]|
    decreases |table|
  {
    var init := table[..|table| - 1];
    var last := |table| - 1;
    CountRowAppend(TripletsOf(init), RowTriplets(last, table[last]), i);
    CountRowOfRow(last, table[last], i);
    if i < last {
      assert init[i] == table[i];
      TripletsOfRowCount(init, i);
    } else if init != [] {
      TripletsOfNoRow(init, i);
    }
  }

  /** A row beyond the table has no triplets. */
  lemma {:induction false} TripletsOfNoRow(table: seq<seq<int>>, i: int)
    requires i >= |table|
    ensures CountRow(TripletsOf(table), i) == 0
    decreases |table|
  {
    if table != [] {
      var init := table[..|table| - 1];
      var last := |table| - 1;
      CountRowAppend(TripletsOf(init), RowTriplets(last, table[last]), i);
      CountRowOfRow(last, table[last], i);
      TripletsOfNoRow(init, i);
    }
  }

  /**
   The association of one round, as built from the search results: every
   triplet is `(i, j, 1)` with `j` a neighbour of `i`, every neighbour pair
   has its triplet, rows come in ascending order, row `i` holds one triplet
   per neighbour (so at most `max_nn` when that is positive), every index
   fits the declared `|source| x |target|` shape, and the matrix built from
   them stores a 1 at exactly the neighbour pairs.
   */
  lemma AssociationShape(table: seq<seq<int>>, targetSize: nat, maxNn: int)
    requires ValidTable(table, targetSize, maxNn)
    ensures forall i, j, v :: Triplet(i, j, v) in TripletsOf(table) <==> 0 <= i < |table| && j in table[i] && v == 1
    ensures forall a, b :: 0 <= a < b < |TripletsOf(table)| ==> TripletsOf(table)[a].row <= TripletsOf(table)[b].row
    ensures forall i :: 0 <= i < |table| ==> CountRow(TripletsOf(table), i) == |table[i]|
    ensures forall i :: 0 <= i < |table| && maxNn > 0 ==> CountRow(TripletsOf(table), i) <= maxNn
    ensures InShape(TripletsOf(table), |table|, targetSize)
    ensures forall i, j :: (i, j) in Accumulate(TripletsOf(table)) <==> 0 <= i < |table| && j in table[i]
    ensures forall key :: key in Accumulate(TripletsOf(table)) ==> Accumulate(TripletsOf(table))[key] == 1
  {
    var ts := TripletsOf(table);
    TripletsOfSound(table);
    TripletsOfSorted(table);
    TripletsOfDistinct(table, targetSize, maxNn);
    AccumulateKeys(ts);
    AccumulateDistinct(ts);
    forall i, j, v ensures Triplet(i, j, v) in ts <==> 0 <= i < |table| && j in table[i] && v == 1 {
      if 0 <= i < |table| && j in table[i] && v == 1 {
        TripletsOfComplete(table, i, j);
      }
    }
    forall i | 0 <= i < |table| ensures CountRow(ts, i) == |table[i]| {
      TripletsOfRowCount(table, i);
    }
    TripletsInShape(table, targetSize, maxNn);
    forall i, j ensures (i, j) in Accumulate(ts) <==> 0 <= i < |table| && j in table[i] {
      if 0 <= i < |table| && j in table[i] {
        TripletsOfComplete(table, i, j);
        var k :| 0 <= k < |ts| && ts[k] == Triplet(i, j, 1);
      }
    }
  }
}
