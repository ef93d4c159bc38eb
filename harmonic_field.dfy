/**
 The discrete bookkeeping of ttk::HarmonicField: the choice of a solving method,
 the assembly of the constraint vector and of the diagonal penalty matrix from
 the constrained vertex identifiers, and the copy of the negated solution into
 the caller's output buffer. The Laplacian, the sparse solve and alpha's
 exponentiation are parameters of Execute.
 */
module HarmonicField {
  import opened OrderedIds
  import opened Sparse

  /** The method a user may ask for. */
  datatype SolvingMethodUserType = Auto | Cholesky | Iterative

  /** The method actually run: sparse Cholesky factorisation or conjugate gradients. */
  datatype SolvingMethodType = Cholesky | Iterative

  /** The status Eigen reports after a solve. */
  datatype ComputationInfo = Success | NumericalIssue | NoConvergence | InvalidInput

  /** What the external solve returns: a status and the solution vector. */
  datatype SolverOutcome = SolverOutcome(info: ComputationInfo, solution: seq<real>)

  /** The configuration a HarmonicField object carries into a call of execute. */
  datatype Config = Config(
    vertexNumber: nat,
    edgeNumber: nat,
    constraintNumber: nat,
    useCotanWeights: bool,
    solvingMethod: SolvingMethodUserType,
    logAlpha: int)

  /** The configuration the constructor sets up. */
  function DefaultConfig(): Config {
    Config(0, 0, 0, true, SolvingMethodUserType.Auto, 5)
  }

  /** Above this many Laplacian nonzeros the iterative method is preferred. */
  const Threshold: int := 500000

  /** The size heuristic of findBestSolver: an estimate of the Laplacian's nonzeros. */
  function Score(vertexNumber: nat, edgeNumber: nat): nat {
    2 * edgeNumber + vertexNumber
  }

  /** findBestSolver: Iterative exactly when the score exceeds the threshold. */
  function FindBestSolver(vertexNumber: nat, edgeNumber: nat): (r: SolvingMethodType)
    ensures r == SolvingMethodType.Iterative <==> Score(vertexNumber, edgeNumber) > Threshold
  {
    if Score(vertexNumber, edgeNumber) > Threshold then SolvingMethodType.Iterative
    else SolvingMethodType.Cholesky
  }

  /** At the threshold itself Cholesky is chosen; one more nonzero switches to Iterative. */
  lemma FindBestSolverBoundary(vertexNumber: nat, edgeNumber: nat)
    ensures Score(vertexNumber, edgeNumber) == Threshold ==>
              FindBestSolver(vertexNumber, edgeNumber) == SolvingMethodType.Cholesky
    ensures Score(vertexNumber, edgeNumber) == Threshold + 1 ==>
              FindBestSolver(vertexNumber, edgeNumber) == SolvingMethodType.Iterative
  {
  }

  /** A larger mesh never switches back from Iterative to Cholesky. */
  lemma FindBestSolverMonotone(v: nat, e: nat, v': nat, e': nat)
    requires v <= v' && e <= e'
    ensures FindBestSolver(v, e) == SolvingMethodType.Iterative ==>
              FindBestSolver(v', e') == SolvingMethodType.Iterative
  {
  }

  /** The switch in execute that turns the user's choice into a concrete method. */
  function SelectMethod(cfg: Config): (sm: SolvingMethodType)
    ensures cfg.solvingMethod == SolvingMethodUserType.Auto ==>
              sm == FindBestSolver(cfg.vertexNumber, cfg.edgeNumber)
    ensures cfg.solvingMethod == SolvingMethodUserType.Cholesky ==> sm == SolvingMethodType.Cholesky
    ensures cfg.solvingMethod == SolvingMethodUserType.Iterative ==> sm == SolvingMethodType.Iterative
  {
    match cfg.solvingMethod
    case Auto => FindBestSolver(cfg.vertexNumber, cfg.edgeNumber)
    case Cholesky => SolvingMethodType.Cholesky
    case Iterative => SolvingMethodType.Iterative
  }

  /** Conjugate gradients run exactly when asked for, or when Auto finds the mesh large. */
  lemma SelectMethodIterative(cfg: Config)
    ensures SelectMethod(cfg) == SolvingMethodType.Iterative <==>
              cfg.solvingMethod == SolvingMethodUserType.Iterative ||
              (cfg.solvingMethod == SolvingMethodUserType.Auto &&
               Score(cfg.vertexNumber, cfg.edgeNumber) > Threshold)
  {
  }

  /** A freshly constructed object, on its empty mesh, would factorise. */
  lemma DefaultSelectsCholesky()
    ensures SelectMethod(DefaultConfig()) == SolvingMethodType.Cholesky
  {
  }

  /**
   The loop that inserts the first `constraintNumber` identifiers into a
   std::set, followed by the copy of that set into `identifiersVec`.
   */
  method UniqueIdentifiers(identifiers: seq<int>, constraintNumber: nat) returns (ids: seq<int>)
    requires constraintNumber <= |identifiers|
    ensures ids == SortedDistinct(identifiers[..constraintNumber])
    ensures StrictlyIncreasing(ids)
    ensures forall y :: y in ids <==> y in identifiers[..constraintNumber]
    ensures |ids| <= constraintNumber
  {
    var identifiersSet: seq<int> := [];
    for i := 0 to constraintNumber
      invariant identifiersSet == SortedDistinct(identifiers[..i])
    {
      assert identifiers[..i + 1][..i] == identifiers[..i];
      identifiersSet := Insert(identifiersSet, identifiers[i]);
    }
    ids := identifiersSet;
  }

  /** Every identifier is a vertex of the mesh. */
  predicate InRange(ids: seq<int>, vertexNumber: nat) {
    forall k :: 0 <= k < |ids| ==> 0 <= ids[k] < vertexNumber
  }

  /**
   The constraint vector: dimension `vertexNumber`, a stored coefficient exactly
   at each identifier, the k-th identifier holding the k-th value (matched by
   position, not by id), zero everywhere else.
   */
  ghost predicate IsConstraintVector(v: SparseVector, vertexNumber: nat, ids: seq<int>, sf: seq<real>)
    requires |ids| <= |sf|
  {
    && v.size == vertexNumber
    && v.Valid()
    && (forall y :: y in v.entries <==> y in ids)
    && (forall k :: 0 <= k < |ids| ==> v.Coeff(ids[k]) == sf[k])
    && (forall j :: 0 <= j < vertexNumber && j !in ids ==> v.Coeff(j) == 0.0)
  }

  /**
   The loop that writes `sf[i]` at `identifiersVec[i]` of a fresh sparse vector
   of dimension `vertexNumber`. It reads `sf` only below `|ids|`.
   */
  method AssembleConstraints(vertexNumber: nat, ids: seq<int>, sf: seq<real>) returns (v: SparseVector)
    requires StrictlyIncreasing(ids)
    requires InRange(ids, vertexNumber)
    requires |ids| <= |sf|
    ensures IsConstraintVector(v, vertexNumber, ids, sf)
  {
    var entries: map<int, real> := map[];
    for i := 0 to |ids|
      invariant forall y :: y in entries <==> y in ids[..i]
      invariant forall k :: 0 <= k < i ==> entries[ids[k]] == sf[k]
    {
      assert ids[..i + 1] == ids[..i] + [ids[i]];
      entries := entries[ids[i] := sf[i]];
    }
    assert ids[..|ids|] == ids;
    v := SparseVector(vertexNumber, entries);
  }

  /**
   The constraint vector depends on `sf` only below `|ids|`, and `constraintNumber`
   supplied values always cover that range, since deduplication never lengthens.
   */
  lemma ConstraintValuesRead(v: SparseVector, vertexNumber: nat, identifiers: seq<int>,
                             constraintNumber: nat, sf: seq<real>)
    requires constraintNumber <= |identifiers| && constraintNumber <= |sf|
    ensures |SortedDistinct(identifiers[..constraintNumber])| <= |sf|
    ensures var ids := SortedDistinct(identifiers[..constraintNumber]);
            IsConstraintVector(v, vertexNumber, ids, sf) <==>
            IsConstraintVector(v, vertexNumber, ids, sf[..|ids|])
  {
  }

  /**
   Values are paired with ids by position in ascending id order, not with the
   id they were given beside: ids 7 then 3 with values 1 then 2 put 1 at vertex 3.
   */
  lemma PositionalPairing(v: SparseVector)
    ensures SortedDistinct([7, 3]) == [3, 7]
    ensures IsConstraintVector(v, 8, SortedDistinct([7, 3]), [1.0, 2.0]) ==>
              v.Coeff(3) == 1.0 && v.Coeff(7) == 2.0
  {
  }

  /**
   A repeated id collapses, and the values keep their positions: ids [4, 4, 2]
   with values [1, 2, 3] give 1 at vertex 2, 2 at vertex 4 and 0 at the other
   vertices of a five-vertex mesh; 3 is never read.
   */
  lemma RepeatedIdPairing(v: SparseVector)
    ensures SortedDistinct([4, 4, 2]) == [2, 4]
    ensures IsConstraintVector(v, 5, SortedDistinct([4, 4, 2]), [1.0, 2.0, 3.0]) ==>
              v.Coeff(2) == 1.0 && v.Coeff(4) == 2.0 && v.Coeff(0) == 0.0 &&
              v.Coeff(1) == 0.0 && v.Coeff(3) == 0.0
  {
  }

  /** One triplet (i, i, alpha) per identifier, in the identifiers' order. */
  predicate IsPenaltyTriplets(ts: seq<Triplet>, ids: seq<int>, alpha: real) {
    |ts| == |ids| && forall k :: 0 <= k < |ts| ==> ts[k] == Triplet(ids[k], ids[k], alpha)
  }

  /** The loop that emplaces one diagonal triplet per constrained vertex. */
  method PenaltyTriplets(ids: seq<int>, alpha: real) returns (triplets: seq<Triplet>)
    ensures IsPenaltyTriplets(triplets, ids, alpha)
  {
    triplets := [];
    for k := 0 to |ids|
      invariant IsPenaltyTriplets(triplets, ids[..k], alpha)
    {
      triplets := triplets + [Triplet(ids[k], ids[k], alpha)];
    }
  }

  /**
   The penalty matrix built from those triplets: no two triplets share a
   position, so it is `alpha` on the diagonal at each constrained vertex and zero
   everywhere else; it lies inside its vertexNumber x vertexNumber shape.
   */
  lemma PenaltyDiagonal(vertexNumber: nat, ids: seq<int>, alpha: real, ts: seq<Triplet>)
    requires StrictlyIncreasing(ids) && InRange(ids, vertexNumber)
    requires IsPenaltyTriplets(ts, ids, alpha)
    ensures forall j, k :: 0 <= j < k < |ts| ==> ts[j].row != ts[k].row
    ensures SparseMatrix(vertexNumber, vertexNumber, ts).Valid()
    ensures forall r, c :: SparseMatrix(vertexNumber, vertexNumber, ts).Coeff(r, c) ==
                           if r == c && r in ids then alpha else 0.0
  {
    forall r, c
      ensures TripletSum(ts, r, c) == if r == c && r in ids then alpha else 0.0
    {
      if r == c && r in ids {
        var k :| 0 <= k < |ids| && ids[k] == r;
        TripletSumUnique(ts, r, c, k);
      } else {
        TripletSumNone(ts, r, c);
      }
    }
  }

  /**
   The loop that overwrites the first `vertexNumber` slots of the output buffer
   with the negated solution; later slots are left alone.
   */
  method CopyNegated(output: array<real>, solDense: seq<real>, vertexNumber: nat)
    requires vertexNumber <= output.Length && vertexNumber <= |solDense|
    modifies output
    ensures forall i :: 0 <= i < vertexNumber ==> output[i] == -solDense[i]
    ensures forall i :: vertexNumber <= i < output.Length ==> output[i] == old(output[i])
  {
    for i := 0 to vertexNumber
      invariant forall j :: 0 <= j < i ==> output[j] == -solDense[j]
      invariant forall j :: i <= j < output.Length ==> output[j] == old(output[j])
    {
      output[i] := -solDense[i];
    }
  }

  /** What execute demands of its caller when Eigen is available. */
  ghost predicate ExecuteRequires(
    cfg: Config, identifiers: seq<int>, sf: seq<real>,
    solve: (bool, SolvingMethodType, SparseMatrix, SparseVector) -> SolverOutcome,
    outputLength: nat)
  {
    && cfg.constraintNumber <= |identifiers|
    && InRange(identifiers[..cfg.constraintNumber], cfg.vertexNumber)
    && |SortedDistinct(identifiers[..cfg.constraintNumber])| <= |sf|
    && (forall w, m, p: SparseMatrix, c: SparseVector ::
          p.rows == cfg.vertexNumber && p.cols == cfg.vertexNumber && c.size == cfg.vertexNumber ==>
          |solve(w, m, p, c).solution| >= cfg.vertexNumber)
    && cfg.vertexNumber <= outputLength
  }

  /**
   execute. `eigenEnabled` is the build-time gate; `pow10` computes alpha from
   logAlpha; `solve` builds the Laplacian (cotangent or combinatorial weights)
   and solves the penalised system with the chosen method. The ghost results
   name the method and the two operands handed to the solve.
   */
  method Execute(
    cfg: Config, eigenEnabled: bool, identifiers: seq<int>, sf: seq<real>,
    pow10: int -> real,
    solve: (bool, SolvingMethodType, SparseMatrix, SparseVector) -> SolverOutcome,
    output: array<real>)
    returns (res: int, ghost sm: SolvingMethodType, ghost penalty: SparseMatrix, ghost constraints: SparseVector)
    requires eigenEnabled ==> ExecuteRequires(cfg, identifiers, sf, solve, output.Length)
    modifies output
    ensures res == 0
    ensures !eigenEnabled ==> output[..] == old(output[..])
    ensures eigenEnabled ==>
      var ids := SortedDistinct(identifiers[..cfg.constraintNumber]);
      && sm == SelectMethod(cfg)
      && IsConstraintVector(constraints, cfg.vertexNumber, ids, sf)
      && penalty.rows == cfg.vertexNumber && penalty.cols == cfg.vertexNumber
      && IsPenaltyTriplets(penalty.triplets, ids, pow10(cfg.logAlpha))
      && penalty.Valid()
      && (forall r, c :: penalty.Coeff(r, c) ==
                         if r == c && r in ids then pow10(cfg.logAlpha) else 0.0)
      && (forall i :: 0 <= i < cfg.vertexNumber ==>
            output[i] == -solve(cfg.useCotanWeights, sm, penalty, constraints).solution[i])
      && (forall i :: cfg.vertexNumber <= i < output.Length ==> output[i] == old(output[i]))
  {
    if !eigenEnabled {
      sm, penalty, constraints := SolvingMethodType.Cholesky, SparseMatrix(0, 0, []), SparseVector(0, map[]);
      return 0, sm, penalty, constraints;
    }
    var ids := UniqueIdentifiers(identifiers, cfg.constraintNumber);
    assert InRange(ids, cfg.vertexNumber) by {
      var given := identifiers[..cfg.constraintNumber];
      forall k | 0 <= k < |ids|
        ensures 0 <= ids[k] < cfg.vertexNumber
      {
        assert ids[k] in given;
        var j :| 0 <= j < |given| && given[j] == ids[k];
      }
    }
    var c := AssembleConstraints(cfg.vertexNumber, ids, sf);
    var chosen := SelectMethod(cfg);
    var alpha := pow10(cfg.logAlpha);
    var triplets := PenaltyTriplets(ids, alpha);
    var p := SparseMatrix(cfg.vertexNumber, cfg.vertexNumber, triplets);
    PenaltyDiagonal(cfg.vertexNumber, ids, alpha, triplets);
    var outcome := solve(cfg.useCotanWeights, chosen, p, c);
    CopyNegated(output, outcome.solution, cfg.vertexNumber);
    sm, penalty, constraints := chosen, p, c;
    res := 0;
  }
}
