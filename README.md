# HarmonicField bookkeeping, in Dafny

`ttk::HarmonicField` computes a harmonic scalar field on a mesh: it builds a
Laplacian, a diagonal penalty matrix with `alpha` at the constrained vertices
and a constraint vector, passes the three to a sparse Cholesky or
conjugate-gradient solve (defined in a header, not modelled), then writes the
negated solution into the caller's buffer.
This project models the discrete layer of `execute` and `findBestSolver`
around that solve:

- **Solver selection** (`HarmonicField.FindBestSolver`, `HarmonicField.SelectMethod`):
  the size heuristic `2 * edgeNumber + vertexNumber > 500000` and the switch
  from the user's Auto / Cholesky / Iterative choice to a concrete method.
- **Constraint assembly** (`HarmonicField.UniqueIdentifiers`,
  `HarmonicField.AssembleConstraints`): deduplication of the constrained vertex
  ids through a `std::set` (modelled in `OrderedIds` as a strictly increasing
  sequence, the set's iteration order), and the sparse constraint vector in
  which the k-th smallest distinct id receives the k-th supplied value.
- **Penalty assembly** (`HarmonicField.PenaltyTriplets`,
  `HarmonicField.PenaltyDiagonal`): one triplet `(i, i, alpha)` per distinct id;
  `Sparse` models Eigen's `setFromTriplets`, which sums triplets sharing a position.
- **Result materialisation** (`HarmonicField.CopyNegated`): the loop that
  overwrites output slot `i` with `-solDense(i)`, on an `array<real>`.
- **execute** (`HarmonicField.Execute`): the sequence of the steps above, the
  build-time Eigen gate and the constant return value 0.

Scalars are `real`. The object's configuration is a datatype (`Config`):
neither `execute` nor `findBestSolver` changes it. The Laplacian builders and
the sparse solve are one function parameter `solve` of `Execute`, which receives
the weighting flag, the chosen method, the penalty matrix and the constraint
vector, and returns a status and a solution. `pow10` is a second function
parameter. Whether Eigen is compiled in is the boolean `eigenEnabled`.

## Model

| member | source | states |
|---|---|---|
| HarmonicField.FindBestSolver | core/base/harmonicField/HarmonicField.cpp:9-20 | Iterative exactly when `2*edgeNumber + vertexNumber` exceeds 500000, Cholesky exactly when it does not |
| HarmonicField.FindBestSolverBoundary | core/base/harmonicField/HarmonicField.cpp:13-19 | a score of exactly 500000 picks Cholesky, 500001 picks Iterative |
| HarmonicField.FindBestSolverMonotone | core/base/harmonicField/HarmonicField.cpp:16-19 | growing the vertex or edge count never turns Iterative back into Cholesky |
| HarmonicField.SelectMethod | core/base/harmonicField/HarmonicField.cpp:79-91 | Auto yields findBestSolver's answer; an explicit Cholesky or Iterative choice is returned unchanged |
| HarmonicField.SelectMethodIterative | core/base/harmonicField/HarmonicField.cpp:79-91 | conjugate gradients run iff the user asked for them, or asked for Auto on a mesh whose score exceeds the threshold |
| HarmonicField.DefaultSelectsCholesky | core/base/harmonicField/HarmonicField.cpp:3-7 | the constructor's defaults (Auto, empty mesh) select Cholesky |
| OrderedIds.Insert | core/base/harmonicField/HarmonicField.cpp:57 | inserting into the ordered set keeps it strictly increasing, adds exactly the new id, and grows it by one iff the id was absent |
| OrderedIds.SortedDistinct | core/base/harmonicField/HarmonicField.cpp:55-61 | the set built from the given ids, in iteration order, is strictly increasing, holds exactly the given ids, and is no longer than the input |
| OrderedIds.SortedDistinctCharacterized | core/base/harmonicField/HarmonicField.cpp:60-61 | every strictly increasing sequence with the same elements as the input equals `identifiersVec`, so the vector is the unique sorted duplicate-free listing of the ids |
| OrderedIds.SortedDistinctIdempotent | core/base/harmonicField/HarmonicField.cpp:55-61 | deduplicating an already deduplicated vector returns it unchanged |
| OrderedIds.SortedDistinctLength | core/base/harmonicField/HarmonicField.cpp:55-61 | when no id repeats, the vector has one entry per given id |
| HarmonicField.UniqueIdentifiers | core/base/harmonicField/HarmonicField.cpp:54-61 | the insertion loop and copy yield a strictly increasing vector whose elements are exactly `identifiers[0 .. constraintNumber)` and whose length is at most `constraintNumber` |
| HarmonicField.AssembleConstraints | core/base/harmonicField/HarmonicField.cpp:72-77 | the constraint vector has dimension `vertexNumber`, stores a coefficient exactly at the distinct ids, holds `sf[k]` at the k-th smallest id, and is 0 everywhere else |
| HarmonicField.ConstraintValuesRead | core/base/harmonicField/HarmonicField.cpp:73-77 | the constraint vector depends on `sf` only below the number of distinct ids, which never exceeds the `constraintNumber` supplied values |
| HarmonicField.PositionalPairing | core/base/harmonicField/HarmonicField.cpp:74-77 | ids given as 7 then 3 with values 1 then 2 put value 1 at vertex 3: values pair with ids by ascending position, not by the id they were given beside |
| HarmonicField.RepeatedIdPairing | core/base/harmonicField/HarmonicField.cpp:55-77 | ids [4, 4, 2] with values [1, 2, 3] collapse to [2, 4], put 1 at vertex 2, 2 at vertex 4 and 0 at the unconstrained vertices 0, 1 and 3 |
| HarmonicField.PenaltyTriplets | core/base/harmonicField/HarmonicField.cpp:98-102 | one triplet `(ids[k], ids[k], alpha)` per distinct id, in the ids' order |
| HarmonicField.PenaltyDiagonal | core/base/harmonicField/HarmonicField.cpp:93-103 | no two penalty triplets share an index, all lie inside the `vertexNumber x vertexNumber` shape, and the assembled matrix is `alpha` on the diagonal at each constrained vertex and 0 at every other position |
| HarmonicField.CopyNegated | core/base/harmonicField/HarmonicField.cpp:140-153 | output slot `i` holds `-solDense[i]` for every `i < vertexNumber`; no slot at or beyond `vertexNumber` changes |
| HarmonicField.Execute | core/base/harmonicField/HarmonicField.cpp:24-189 | returns 0 whatever the solver reports; without Eigen the output buffer is untouched; with Eigen the solve receives the selected method, the constraint vector and the diagonal penalty above, and the output holds the negated solution on `[0, vertexNumber)` and is unchanged beyond |

## Left out

- The Laplacian builders `compute_laplacian` and `compute_laplacian_with_cotan_weights` and the `solve` template are not part of this model: their source is in headers outside this model, and they are floating-point sparse linear algebra done by Eigen (`SimplicialCholesky`, `ConjugateGradient`). They are the opaque parameter `solve` of `Execute`.
- `pow10(logAlpha_)` is floating-point exponentiation; it is the parameter `pow10` of `Execute`, and the assembly steps take `alpha` as a plain value.
- `Eigen::setNbThreads` and the OpenMP `parallel for` are concurrency and process-wide configuration; the copy is a sequential loop, which writes the same slots.
- Logging (`dMsg`, the message streams, `Timer`) and the mapping of the solver status to messages are output only; the status is carried in `SolverOutcome.info` and otherwise ignored, as in the source.
- The `float` and `double` instantiations are one scalar type, `real`; rounding is not modelled.
- The conversion of Eigen's sparse solution to the dense `solDense` is not modelled: the solver's result is already a sequence.
- The setters and the header `HarmonicField.h` are not part of this model; `Config` holds the configuration fields they read, apart from `threadNumber_`, which only the thread setup and logging left out above use; the buffers `sources_`, `constraints_` and `outputScalarFieldPointer_` become `Execute`'s parameters `identifiers`, `sf` and `output`.
- HarmonicField.FindBestSolver: integers are unbounded, so a `SimplexId` overflow of `2 * edgeNumber_` on meshes beyond about a billion edges (32-bit ids) is not modelled.
- HarmonicField.UniqueIdentifiers: `constraintNumber` and the mesh sizes are `nat`; a negative count, for which the source's loops would run zero times, is not modelled.
- HarmonicField.AssembleConstraints: requires every distinct id to lie in `[0, vertexNumber)`; the source does not check this, and an out-of-range id at `coeffRef` is undefined behaviour or an Eigen assertion, which the model does not capture.
- HarmonicField.PenaltyDiagonal: requires the same range for the ids; an out-of-range triplet passed to `setFromTriplets` is undefined behaviour or an Eigen assertion, not modelled.
- HarmonicField.Execute: requires in-range ids, for the two reasons above, and requires the solve to return at least `vertexNumber` values for operands of the mesh's size.

## Notes

- Method names follow the code's `SolvingMethodType` (Cholesky, Iterative).
