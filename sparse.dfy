/**
 The parts of Eigen's sparse containers that HarmonicField::execute relies on:
 a SparseVector of fixed dimension whose coefficients are written through
 coeffRef, and a SparseMatrix assembled with setFromTriplets, which sums the
 values of triplets that share a position.
 */
module Sparse {

  /** A sparse vector: its dimension and its stored coefficients. */
  datatype SparseVector = SparseVector(size: nat, entries: map<int, real>) {

    /** Every stored coefficient lies inside the dimension. */
    predicate Valid() {
      forall i :: i in entries ==> 0 <= i < size
    }

    /** The coefficient at `i`: the stored value, or zero when none is stored. */
    function Coeff(i: int): real {
      if i in entries then entries[i] else 0.0
    }
  }

  /** Eigen::Triplet: a row, a column and a value. */
  datatype Triplet = Triplet(row: int, col: int, value: real)

  /** The sum of the values of the triplets placed at (r, c). */
  function TripletSum(ts: seq<Triplet>, r: int, c: int): real {
    if ts == [] then 0.0
    else (if ts[0].row == r && ts[0].col == c then ts[0].value else 0.0) + TripletSum(ts[1..], r, c)
  }

  /** A sparse matrix as setFromTriplets leaves it: its shape and its triplets. */
  datatype SparseMatrix = SparseMatrix(rows: nat, cols: nat, triplets: seq<Triplet>) {

    /** Every triplet lies inside the shape, which setFromTriplets asserts. */
    predicate Valid() {
      forall k :: 0 <= k < |triplets| ==> 0 <= triplets[k].row < rows && 0 <= triplets[k].col < cols
    }

    /** The coefficient at (r, c): duplicate triplets are summed. */
    function Coeff(r: int, c: int): real {
      TripletSum(triplets, r, c)
    }
  }

  /** No triplet at (r, c): the coefficient there is zero. */
  lemma {:induction false} TripletSumNone(ts: seq<Triplet>, r: int, c: int)
    requires forall k :: 0 <= k < |ts| ==> !(ts[k].row == r && ts[k].col == c)
    ensures TripletSum(ts, r, c) == 0.0
  {
    if ts != [] {
      TripletSumNone(ts[1..], r, c);
    }
  }

  /** Exactly one triplet, the k-th, at (r, c): the coefficient there is its value. */
  lemma {:induction false} TripletSumUnique(ts: seq<Triplet>, r: int, c: int, k: nat)
    requires k < |ts| && ts[k].row == r && ts[k].col == c
    requires forall j :: 0 <= j < |ts| && j != k ==> !(ts[j].row == r && ts[j].col == c)
    ensures TripletSum(ts, r, c) == ts[k].value
  {
    if k == 0 {
      TripletSumNone(ts[1..], r, c);
    } else {
      TripletSumUnique(ts[1..], r, c, k - 1);
    }
  }
}
