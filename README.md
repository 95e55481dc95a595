# sparsegrad in Dafny

sparsegrad computes sparse Jacobians by forward-mode automatic
differentiation. This project is a Dafny model of its core: the
derivative representation, the forward chain-rule layer, the sparse-vector
merge, the earlier "matrix factory" layer, the multiple-dispatch
resolution and the priority routing. Each operation carries a contract
stating what it computes, together with lemmas that relate the pieces.

- **Derivative matrices** (`scaled.dfy`, module `ScaledMatrix`).
  - A derivative is an `sdcsr`: the product `s · diag(d) · M`, where `M`
    absent stands for the identity. Its shape `mshape` may have absent
    dimensions (0-d values).
  - The class `Sdcsr` models both `sdcsr` and its sparsity variant
    `sparsity_csr`, which keeps only the pattern of `M` (every stored entry
    1) and ignores the scaling.
  - `M` is an object of class `Mat`, so "the same `M`" is reference
    equality, as in the source's `d.M is M`.
  - Every operation is specified by the dense matrix `Dense()` that the
    instance stands for. `Dense()` is over the abstract matrices of
    `matrices.dfy`.
  - The memo of `tovalue` is a mutable `cache` field.
- **CSR helpers** (`csr.dfy`). `sample_csr_rows`, `getrows`, `fromarrays`
  and `diagonal` work on explicit `data`/`indices`/`indptr` sequences.
- **Multi-term chain rule** (`fma.dfy`). `fma` has a fast path that fires
  when every term shares one `M` object, and a slow path that materialises
  and sums the terms. The two are proved to agree.
- **Forward values** (`forward.dfy`, `forward_ext.dfy`, `indexing.dfy`).
  - `forward_value` pairs a value with a derivative of matching row count.
  - Modelled operations: the arithmetic operators, `apply`, indexing by
    integer, slice, integer array and boolean mask, `where`, `dot_`, `sum`,
    `hstack`, `broadcast_to`, `sparsesum` with its row-remapping `wrap`,
    `seed` and the sparsity `branch_join`.
  - For each operator, the new Jacobian is stated as the sum, product or
    quotient rule of the operand Jacobians. For the sparsity variant, the
    pattern it computes is proved to cover the numeric Jacobian.
- **Sparse-vector merge** (`sparsevec_impl.dfy`, `sparsevec_bare.dfy`,
  `legacy_sparsevec.dfy`).
  - `sparsesum` scatter-adds length-`n` sparse vectors, either to a dense
    vector or to the compressed form `unique + searchsorted`.
  - Its `sparsesum_bare` wrapper and the earlier inlined version are
    modelled too.
- **Legacy factories** (`legacy_sparse.dfy`, `legacy_forward.dfy`).
  - The earlier `StandardFactory`/`SparsityFactory` pair.
  - The pattern algebra `socsr`/`soidentity`/`sozero` with its short
    circuits.
  - The running-sum accumulators `MatrixSum`/`sosum`, as class
    `Accumulator`.
  - `expr.__init__` with its "inconsistent matrix factories" check.
- **Multiple dispatch** (`dispatch.dfy`).
  - `Dispatcher` is a class with `functions`, `signatures` and `cache`
    fields; types are abstract, under a subclass partial order.
  - `_find` is proved to return exactly the minimal applicable signatures.
- **Routing** (`routing.dfy`, `base_expr.dfy`).
  - `_find_arr` and both `find_implementation` loops are proved to pick the
    first strictly-highest priority, or the default.
  - `branch` partitions the positions by the condition mask and merges the
    two callback results with `sparsesum`.

Numbers are `real`. The module `Common` holds shared values: `Num`
(numpy 0-d scalar or 1-d vector), `Option`, `Result` and the Python
exceptions as `Error`.

## Model

| member | source | states |
|---|---|---|
| ScaledMatrix.Scaled | sparsegrad/impl/sparse/sparse.py:139-154 | the lazy product `s·diag(d)·M` as a matrix: entry (i,j) is the row factor i times the base entry, same shape as the base |
| ScaledMatrix.Sdcsr.constructor | sparsegrad/impl/sparse/sparse.py:156-162 | a new derivative holds exactly the given shape, scale, diagonal and `M`, with an empty memo |
| ScaledMatrix.Sdcsr.Dense | sparsegrad/impl/sparse/sparse.py:139-154 | the matrix an instance stands for has `mshape` rows and columns (absent dimensions count as 1) |
| ScaledMatrix.Sdcsr.SparsityDense | sparsegrad/impl/sparse/sparse.py:355-364 | a `sparsity_csr` stands for its base alone, which is a 0/1 pattern: scale and diagonal are ignored |
| ScaledMatrix.Sdcsr.Evaluate | sparsegrad/impl/sparse/sparse.py:164-186 | `_evaluate` returns a value equal to `Dense()`; the result is a scalar exactly for the scalar form (no `M`, 0-d rows); with factor 1 and an `M`, it is `M` itself; any other matrix is new |
| ScaledMatrix.Sdcsr.ToValue | sparsegrad/impl/sparse/sparse.py:188-192 | `tovalue` equals `Dense()` and is stored in the memo; a second call returns the memoised object |
| ScaledMatrix.Make | sparsegrad/impl/sparse/sparse.py:156-162 | builds an `sdcsr` keeping `s`, `diag` and `M`, or a `sparsity_csr` with unit scaling and `M` binarised (kept when already a pattern); its dense matrix is the scaled base, or its pattern |
| ScaledMatrix.New | sparsegrad/impl/sparse/sparse.py:231-237 | `new` puts a vector factor into `diag` with `s=1` and a scalar factor into `s` with `diag=1`, so the overall factor is the given one either way |
| ScaledMatrix.FromMatrix | sparsegrad/impl/sparse/sparse.py:231-237 | a derivative built from an explicit matrix stands for that matrix (or its pattern) |
| ScaledMatrix.SelectDiag | sparsegrad/impl/sparse/sparse.py:194-206 | indexing the diagonal factor gives, at each selected position, the factor at the source row; a scalar factor stays scalar |
| ScaledMatrix.ScaleSelected | sparsegrad/impl/sparse/sparse.py:194-206 | selecting rows of a scaled matrix equals scaling the selected base rows by the selected factors |
| ScaledMatrix.SelectScaled | sparsegrad/impl/sparse/sparse.py:208-223 | row selection commutes with row scaling when the factors are selected alike |
| ScaledMatrix.Sdcsr.GetItemGeneral | sparsegrad/impl/sparse/sparse.py:194-206 | `getitem_general` returns a new derivative of shape (index shape, cols) whose matrix is the selected rows of `Dense()`; a negative integer index counts from the end |
| ScaledMatrix.Sdcsr.GetItemArrayP | sparsegrad/impl/sparse/sparse.py:208-223 | `getitem_arrayp` gives a `(len(idx), cols)` derivative whose row i is row `idx[i]` of `Dense()` (a unit row when `M` is absent, scaled by `s·diag[idx[i]]`) |
| ScaledMatrix.Sdcsr.Zero | sparsegrad/impl/sparse/sparse.py:239-250 | `zero` is the all-zero matrix of the output shape with absent dimensions as 1, built in the scalar form (no `M`) at shape (None, None); for `sparsity_csr` at (None, None) it is the pattern [[1]], because `sparsity_csr.__init__` ignores `s=0` |
| ScaledMatrix.Sdcsr.BroadcastBase | sparsegrad/impl/sparse/sparse.py:258-270 | `_broadcast` builds the new `M` as the base repeated to n rows, i.e. `B·M` with B an n×1 ones column; a pattern for the sparsity variant |
| ScaledMatrix.Sdcsr.Broadcast | sparsegrad/impl/sparse/sparse.py:272-278 | `broadcast` stands for `Dense()` repeated to the output row count; the same instance when the row count is unchanged, otherwise a new one with an explicit `M` |
| ScaledMatrix.Sdcsr.Chain | sparsegrad/impl/sparse/sparse.py:280-291 | `chain` gives factor `s·x·diag` with `M` kept when the row count is unchanged, and a broadcast `M` otherwise; its matrix is `x` times `Dense()` broadcast to the output; `sparsity_csr.chain` ignores `x` |
| ScaledMatrix.Sdcsr.ChainAgrees | sparsegrad/impl/sparse/sparse.py:280-291 | the chained factor applied to the base equals the chain rule `ChainDense(out, x)` |
| ScaledMatrix.Sdcsr.ColumnSum | sparsegrad/impl/sparse/sparse.py:338-346 | `sum` is the 1×cols row of column sums (its pattern for sparsity) with 0-d rows |
| ScaledMatrix.Sdcsr.RDot | sparsegrad/impl/sparse/sparse.py:330-336 | `rdot` is `A·Dense()` of shape (rows of A, cols); the sparsity variant binarises A first and takes the pattern of the product |
| ScaledMatrix.Sdcsr.VStack | sparsegrad/impl/sparse/sparse.py:348-352 | `vstack` stands for the parts' matrices stacked in order, of the output shape |
| ScaledMatrix.Values | sparsegrad/impl/sparse/sparse.py:348-352 | evaluating every part yields exactly the list of their dense matrices |
| ScaledMatrix.Sdcsr.Add | sparsegrad/impl/sparse/sparse.py:318-324 | `__add__` stands for the sum of both matrices (its pattern for sparsity); with a shared `M` it keeps `M`, adds the factors and never fails; otherwise it is scipy's NotImplementedError exactly when one `tovalue` is a nonzero number and the other a matrix |
| ScaledMatrix.AddEvaluated | sparsegrad/impl/sparse/sparse.py:311-313 | `u + v` on two `tovalue` results fails exactly as scipy's sum does, with its error, and otherwise holds scipy's sum (a new matrix when it is one) |
| ScaledMatrix.SpAdd | sparsegrad/impl/sparse/sparse.py:311-313 | scipy's `+` on values of one shape: numbers add, matrices add, a matrix plus the number 0 is the matrix, and a nonzero number with a matrix is `NotImplementedError('adding a nonzero scalar to a sparse matrix is not supported')`; the sum is a number iff both are |
| ScaledMatrix.SpAddSums | sparsegrad/impl/sparse/sparse.py:311-313 | every sum scipy accepts is the sum of the two matrices the values stand for |
| ScaledMatrix.Sdcsr.AsPlain | sparsegrad/impl/sparse/sparse.py:164-192 | `tovalue` seen as a value stands for `Dense()` and is a number exactly for a 0-d derivative of a 0-d value without `M` |
| ScaledMatrix.Sdcsr.AddShared | sparsegrad/impl/sparse/sparse.py:319-321 | with `other.M is self.M`, a new derivative over the same `M` with the summed factor, standing for the sum |
| ScaledMatrix.Sdcsr.AddUnshared | sparsegrad/impl/sparse/sparse.py:322-324 | `self.tovalue() + other.tovalue()` wrapped as a derivative: the sum, or scipy's refusal of a nonzero number next to a matrix |
| ScaledMatrix.ScaledPlus | sparsegrad/impl/sparse/sparse.py:318-324 | scaling one base by the sum of two factors equals the sum of the two scaled matrices (the fast path of `__add__`) |
| Matrices.MatMulCovers | sparsegrad/impl/sparse/sparse.py:388-397 | multiplying a pattern by the binarised left factor covers every entry of the numeric product, so no cancellation can remove an entry |
| Matrices.RDotCovers | sparsegrad/impl/sparse/sparse.py:388-397 | the pattern `rdot` computes covers the numeric `rdot` |
| Csr.ToDense | sparsegrad/impl/sparse/sparse.py:49-78 | a valid CSR triple stands for the matrix whose row i scatters the row's data into the row's column indices |
| Csr.CumulativeCounts | sparsegrad/impl/sparse/sparse.py:38-44 | the `indptr` buffer has `len(rows)+1` entries, starts at 0, is non-decreasing, and consecutive differences are the lengths of the sampled rows |
| Csr.SampleCsrRows | sparsegrad/impl/sparse/sparse.py:38-46 | besides `indptr`, the index map sends position `indptr[i]+k` to `csr.indptr[rows[i]]+k` |
| Csr.GetRows | sparsegrad/impl/sparse/sparse.py:92-97 | `getrows` yields a valid `(len(rows), cols)` CSR matrix whose row i has the indices and data of row `rows[i]`, i.e. the selected rows of the dense matrix |
| Csr.UnitRows | sparsegrad/impl/sparse/sparse.py:70-78 | the CSR matrix with one 1 per row at column `idx[i]` is the selected rows of the identity |
| Csr.Diagonal | sparsegrad/impl/sparse/sparse.py:134-136 | `diagonal(x, n)` is a valid n×n CSR matrix equal to `diag(x)` |
| FusedChain.Chains | sparsegrad/impl/sparse/sparse.py:310-313 | the slow path's terms are each term's `chain(output, x)`, all of the output shape |
| FusedChain.FmaDense | sparsegrad/impl/sparse/sparse.py:293-314 | the value `fma` must equal, `Σ d.chain(output, x)`: output rows, the first term's columns |
| FusedChain.SharedChains | sparsegrad/impl/sparse/sparse.py:304-309 | when the terms share `M`, each chained term is the shared base scaled by its factor `s·x·diag` |
| FusedChain.FastPathAgrees | sparsegrad/impl/sparse/sparse.py:298-309 | the fast path (the base scaled by the sum of the factors) equals the slow-path sum |
| FusedChain.SharedPatterns | sparsegrad/impl/sparse/sparse.py:369-384 | for `sparsity_csr` with a shared pattern, the pattern of the summed terms is that shared pattern |
| FusedChain.FmaShared | sparsegrad/impl/sparse/sparse.py:304-309 | the fast path returns a new derivative equal to `FmaDense` (or its pattern), keeping the shared `M` when the row count is unchanged, with factor the sum of the term factors |
| FusedChain.SumChained | sparsegrad/impl/sparse/sparse.py:310-313 | the slow loop `v = v + d.chain(output, x).tovalue()` fails exactly when `SlowPath` is refused (scipy's NotImplementedError) and otherwise ends with `SlowPath`'s value, a matrix when the `M`s differ |
| FusedChain.FmaUnshared | sparsegrad/impl/sparse/sparse.py:310-314 | the slow path returns a derivative equal to `FmaDense` (or its pattern), or NotImplementedError exactly when scipy refuses one of its sums |
| FusedChain.Fma | sparsegrad/impl/sparse/sparse.py:293-314 | `fma` fails exactly when the terms do not share `M` and the slow path is refused; otherwise it equals `FmaDense` (or its pattern), and on shared `M` never fails and keeps `M` or broadcasts it as `chain` does |
| FusedChain.PieceOf | sparsegrad/impl/sparse/sparse.py:311-313 | `d.chain(output, x).tovalue()` of one term has the output's rows and `d`'s columns, and is a number exactly when the output and `d` are 0-d without `M` |
| FusedChain.PieceDense | sparsegrad/impl/sparse/sparse.py:311-313 | that value stands for the chained term |
| FusedChain.Running | sparsegrad/impl/sparse/sparse.py:311-313 | the running sum after k terms has the output's shape; its only error is scipy's refusal of a nonzero number |
| FusedChain.RunningNumber | sparsegrad/impl/sparse/sparse.py:311-313 | an accepted running sum is a number exactly when every value so far is one |
| FusedChain.RunningSums | sparsegrad/impl/sparse/sparse.py:311-313 | an accepted running sum is the sum of the matrices so far |
| FusedChain.NoMixNeverRefused | sparsegrad/impl/sparse/sparse.py:311-313 | values that are all numbers or all matrices are never refused |
| FusedChain.ZeroNumbersNeverRefused | sparsegrad/impl/sparse/sparse.py:311-313 | values whose numbers are all 0 are never refused, and a number they sum to is 0 |
| FusedChain.RefusalSticks | sparsegrad/impl/sparse/sparse.py:311-313 | once the loop is refused the whole slow path is |
| FusedChain.NonzeroAfterMatrixRefused | sparsegrad/impl/sparse/sparse.py:311-313 | a nonzero number after a matrix makes the slow path fail |
| FusedChain.SlowPath | sparsegrad/impl/sparse/sparse.py:310-313 | the slow path on values has the output's shape when accepted, and fails only with scipy's NotImplementedError |
| FusedChain.SlowPathSums | sparsegrad/impl/sparse/sparse.py:310-314 | an accepted slow path is the Jacobian `FmaDense` |
| FusedChain.NumberMeansShared | sparsegrad/impl/sparse/sparse.py:306-313 | the slow path gives a number only when every term's `M` is `None`, so the fast path would have been taken |
| FusedChain.TwoTermsRefusal | sparsegrad/impl/sparse/sparse.py:306-316 | with two terms, as in `fma2`, the slow path is refused exactly when one chained term is a nonzero number and the other a matrix, and `fma` fails exactly when besides the `M`s differ |
| FusedChain.ChainedValue | sparsegrad/impl/sparse/sparse.py:311-313 | evaluating one chained term gives `PieceOf`, a number only when `M` is `None` |
| FusedChain.AddChained | sparsegrad/impl/sparse/sparse.py:312-313 | one loop step keeps the running sum equal to `Running`, or records the refusal that ends the slow path |
| Indexing.AsInts | sparsegrad/forward/forward.py:161-165 | a boolean mask becomes the increasing list of positions where it is true; integer arrays are kept |
| Indexing.Normal | sparsegrad/forward/forward.py:171-175 | an in-range Python index counts from the end when negative |
| Indexing.TakeAt | sparsegrad/forward/forward.py:161-169 | numpy's `value[idx]` picks, for each index, the element at its normalised position |
| Indexing.WrapAsWritten | sparsegrad/forward/forward.py:166-168 | the as-written wrap `(idx+n) % n` with `n = len(idx)`: every index in `[0, len(idx))` once any is negative, unchanged otherwise |
| Indexing.WrapAsWrittenMisses | sparsegrad/forward/forward.py:166-168 | index `[-1]` into 5 values: the code as written selects row 0, the value it returns is element 4 |
| Indexing.WrapIndices | sparsegrad/forward/forward.py:166-168 | the corrected wrap normalises each index against the value's length |
| Indexing.WrapMatchesTake | sparsegrad/forward/forward.py:161-169 | with the corrected wrap, Jacobian rows are selected at exactly the positions the value is taken from |
| Indexing.WrapsAgreeWithoutNegatives | sparsegrad/forward/forward.py:166-168 | without negative indices both wraps leave the indices unchanged |
| Indexing.WrapsInsideWhenFew | sparsegrad/forward/forward.py:166-168 | with no more indices than elements, every index the wrap as written produces is inside the value |
| Indexing.WrapAsWrittenOverruns | sparsegrad/forward/forward.py:166-168 | `[-1, 0, 1]` into 2 values is a valid numpy index, but the wrap as written makes it `[2, 0, 1]`, past the end |
| Indexing.SlicePositions | sparsegrad/forward/forward.py:171-175 | a Python slice selects in-range positions; step 0 is a ValueError |
| Indexing.SliceInner | sparsegrad/forward/forward.py:171-175 | `[1:-2]` of 5 elements is positions 1, 2 |
| Indexing.SliceReversed | sparsegrad/forward/forward.py:171-175 | `[::-1]` of 4 elements is positions 3, 2, 1, 0 |
| Indexing.FullSlice | sparsegrad/forward/forward.py:171-175 | `[:]` selects every position in order |
| Forward.NewValue | sparsegrad/forward/forward.py:36-48 | a forward value exists exactly when the derivative's row shape equals the value's shape (None for a scalar, the length for a vector); an AssertionError otherwise |
| Forward.NValue | sparsegrad/forward/forward.py:268-275 | `nvalue` is the value of a forward value and the argument itself otherwise |
| Forward.ChainRule | sparsegrad/forward/forward.py:61-130 | the Jacobian of a term `(x, d)` has the output's row count and d's columns |
| Forward.ChainRuleByOne | sparsegrad/forward/forward.py:61-68 | chaining with 1 only broadcasts the Jacobian |
| Forward.ChainRuleCovers | sparsegrad/impl/sparse/sparse.py:366-367 | the sparsity chain (ignoring x) of a covering pattern covers the numeric chain |
| Forward.CombineCovers | sparsegrad/impl/sparse/sparse.py:369-384 | the sparsity sum of covering patterns covers the numeric sum |
| Forward.DifferenceOfSelf | sparsegrad/forward/forward.py:83-90 | the rule for `a - a` gives the zero Jacobian |
| Forward.SquareOfSeed | sparsegrad/forward/forward.py:71-80 | the product rule for `x*x` of a seed gives `diag(2x)` |
| Forward.TwoTerms | sparsegrad/impl/sparse/sparse.py:293-314 | `fma` of two terms is the sum of their chains |
| Forward.Fma2 | sparsegrad/forward/forward.py:61-130 | the two-term `fma` the binary operators call fails with NotImplementedError exactly when the `M`s differ and one chained term is a nonzero number and the other a matrix (`Refuses2`); otherwise it is the sum of both chain rules |
| Forward.Fma2Terms | sparsegrad/impl/sparse/sparse.py:293-316 | the two `fma2` terms are valid `fma` terms, `fma` refuses them exactly on `Refuses2`, and their sum (its pattern for sparsity) is `Fma2Dense` |
| Forward.ScalarPiece | sparsegrad/impl/sparse/sparse.py:280-291 | a 0-d chained term without `M` is the number `x·s·diag` (1 for sparsity) |
| Forward.RefusedOnlyZeroDim | sparsegrad/impl/sparse/sparse.py:306-316 | `fma2` can fail only for a 0-d output, when one term is 0-d without `M` and nonzero and the other holds an `M` |
| Forward.SumPlusSeedRefused | sparsegrad/forward/forward.py:61-68 | `(x*np.ones(3)).sum() + x` with `x = seed(2.)`: the sum's 0-d Jacobian with a 1×1 `M` and the seed's bare 0-d identity make `fma2` fail |
| Forward.LengthOneFactorMisfits | sparsegrad/impl/sparse/sparse.py:280-291 | a one-element operand whose factor is a length-1 vector, taken to more rows with a 0-d local derivative, is outside `ChainOk` and `BroadcastOk` |
| Forward.ChainFits | sparsegrad/forward/forward.py:61-130 | an operand whose value has the output's shape, is 0-d, or has one element with a scalar factor can be chained and broadcast to the output, with a 0-d local derivative or one of the output's shape |
| Forward.AddValues | sparsegrad/forward/forward.py:61-68 | `a + b` over broadcastable operands (one of length 1 repeated): value `a+b`, Jacobian `da + db` broadcast to the output; NotImplementedError exactly when `fma2` refuses |
| Forward.SubValues | sparsegrad/forward/forward.py:83-90 | `a - b` over broadcastable operands: value `a-b`, Jacobian `da - db` broadcast; NotImplementedError exactly when `fma2` refuses |
| Forward.MulValues | sparsegrad/forward/forward.py:71-80 | `a * b`: value `a·b`, Jacobian `b·da + a·db`; NotImplementedError exactly when `fma2` refuses |
| Forward.DivValues | sparsegrad/forward/forward.py:101-115 | `x / z`: value `x/z`, Jacobian `dx/z - (y/z)·dz`; NotImplementedError exactly when `fma2` refuses |
| Forward.RDivValues | sparsegrad/forward/forward.py:117-130 | `__rdiv__` with a forward numerator: the same quotient rule with the operands' roles swapped, and the same refusal |
| Forward.AddConst | sparsegrad/forward/forward.py:61-68 | `a + c` with `c` broadcastable against `a`: value `a+c`, Jacobian `da` broadcast to the output, the same derivative when the shape is unchanged |
| Forward.SubConst | sparsegrad/forward/forward.py:83-90 | `a - c` with `c` broadcastable: value `a-c`, Jacobian `da` broadcast |
| Forward.RSubConst | sparsegrad/forward/forward.py:92-99 | `c - a` with `c` broadcastable: value `c-a`, Jacobian `-da` broadcast |
| Forward.MulConst | sparsegrad/forward/forward.py:71-80 | `a * c` with `c` broadcastable: value `a·c`, Jacobian `c·da`, keeping `M` when the shape is unchanged |
| Forward.DivConst | sparsegrad/forward/forward.py:101-115 | `a / c` with `c` broadcastable: value `a/c`, Jacobian `da/c` |
| Forward.RDivConst | sparsegrad/forward/forward.py:117-130 | `c / a` with `c` broadcastable: value `c/a`, Jacobian `-(y/a)·da` |
| Forward.Neg | sparsegrad/forward/forward.py:140-142 | `-a`: value `-a`, Jacobian `-da`, same shape |
| Forward.Pos | sparsegrad/forward/forward.py:137-138 | `+a` is `a` |
| Forward.SumRule | sparsegrad/forward/forward.py:61-68 | the rule for `a + b` is the sum of the broadcast Jacobians; a zero second Jacobian leaves the first |
| Forward.QuotientRule | sparsegrad/forward/forward.py:101-115 | elementwise, the quotient rule applied to `(x·z)/z` gives back `dx` |
| Forward.QuotientOfProduct | sparsegrad/forward/forward.py:71-115 | the product then quotient rules, as the operators compose them, give back `dx` for `(x*z)/z` |
| Forward.Terms | sparsegrad/forward/forward.py:145-158 | `apply` keeps exactly the terms of forward arguments, each its local derivative with its Jacobian; none iff every argument is a constant |
| Forward.TermsFit | sparsegrad/forward/forward.py:145-158 | those terms are valid `fma` terms of the output shape |
| Forward.Apply | sparsegrad/forward/forward.py:145-158 | `apply` returns value `y` with Jacobian `Σ chain(y, dfᵢ)` over forward arguments (its pattern for sparsity); an IndexError when no argument is a forward value, and NotImplementedError exactly when the `fma` path is refused |
| Forward.ApplyChain | sparsegrad/forward/forward.py:152-154 | the one-argument path `self.deriv.chain(y, df)` gives the same Jacobian |
| Forward.ApplyFma | sparsegrad/forward/forward.py:155-158 | the `fma` path gives that Jacobian over all forward arguments, or fails exactly as `fma` does |
| Forward.ApplyPathsAgree | sparsegrad/forward/forward.py:145-158 | the `chain` shortcut and the `fma` path agree for a single argument that is `self` |
| Forward.OneVariable | sparsegrad/forward/forward.py:145-158 | with one forward argument among constants, `fma` is that argument's chain |
| Forward.GetItemArray | sparsegrad/forward/forward.py:161-169 | integer or mask indexing: value `value[idx]`, Jacobian rows selected at the corrected positions; an IndexError for an out-of-range index |
| Forward.GetItemArrayAsWritten | sparsegrad/forward/forward.py:161-169 | `getitem_array` as written: value `value[idx]`, Jacobian rows at `(idx+n)%n` with `n = len(idx)`; IndexError exactly for an out-of-range index or a wrapped index past the end; without negative indices, the rows of `GetItemArray` |
| Forward.GetItemScalar | sparsegrad/forward/forward.py:171-175 | an integer index gives a 0-d value and the single selected Jacobian row; an IndexError when out of range or on a scalar |
| Forward.GetItemSlice | sparsegrad/forward/forward.py:171-175 | a slice gives the sliced value and the Jacobian rows at the slice positions; step 0 is a ValueError |
| Forward.GetItem | sparsegrad/forward/forward.py:177-186 | `__getitem__` routes integer, slice, array and 0-d indices to the right path, with each path's outcome |
| Forward.Indicator | sparsegrad/forward/forward.py:198-202 | the 0/1 factor of `where` is 1 exactly where the condition has the wanted truth value |
| Forward.WhereValue | sparsegrad/forward/forward.py:198-202 | `np.where` over broadcast operands has the broadcast shape |
| Forward.WhereSelects | sparsegrad/forward/forward.py:198-202 | `np.where` picks the first operand where the condition holds and the second elsewhere |
| Forward.Where | sparsegrad/forward/forward.py:198-202 | `where` is a forward value iff an operand is; Jacobian `cond·da + (1-cond)·db`, one term when the other operand is constant; NotImplementedError exactly when both are forward and the two terms are refused |
| Forward.WhereVarConst | sparsegrad/forward/forward.py:198-202 | `where(c, a, y)`: Jacobian `cond·da` |
| Forward.WhereConstVar | sparsegrad/forward/forward.py:198-202 | `where(c, x, b)`: Jacobian `(1-cond)·db` |
| Forward.WhereVarVar | sparsegrad/forward/forward.py:198-202 | `where(c, a, b)`: Jacobian `cond·da + (1-cond)·db`, or NotImplementedError exactly when `WhereRefuses` |
| Forward.WhereTermsRefuse | sparsegrad/forward/forward.py:198-202 | the sum of the two `where` terms is refused exactly when `WhereRefuses` |
| Forward.WhereRows | sparsegrad/forward/forward.py:198-202 | each row of that Jacobian is the row of `da` where the condition holds and of `db` elsewhere |
| Forward.WhereUnion | sparsegrad/forward/forward.py:241-245 | its sparsity pattern is the union of both patterns, whatever the condition |
| Forward.BranchJoin | sparsegrad/forward/forward.py:241-245 | `branch_join` on sparsity values is the pattern of the sum of both broadcast Jacobians, failing exactly as `where` does |
| ForwardExtended.Dot | sparsegrad/forward/forward.py:189-196 | `dot_(A, x)`: NotImplementedError when A is an expression or x is not a forward value; otherwise value `A·x` and Jacobian `A·dx` (for sparsity, the pattern with A binarised) |
| ForwardExtended.DotOfSeed | sparsegrad/tests/test_dot.py:26-28 | `dot(M, seed)` has Jacobian M, and its pattern for sparsity |
| ForwardExtended.Sum | sparsegrad/forward/forward.py:219-222 | `sum` is the scalar total with Jacobian the column sums of `da` |
| ForwardExtended.SumOfSeed | sparsegrad/testing/test_sum.py:35 | the sum of a seed has Jacobian `[[1, …, 1]]` |
| ForwardExtended.PartJacobians | sparsegrad/forward/forward.py:224-232 | each part of `hstack` contributes its own Jacobian, or for a constant the Jacobian of `zero(...)`: zeros of its length, except the pattern [[1]] for a 0-d constant under `sparsity_csr`, whose `__init__` ignores `s=0` |
| ForwardExtended.PartJacobiansCols | sparsegrad/forward/forward.py:224-232 | all parts' Jacobians have the columns of `self` |
| ForwardExtended.HStack | sparsegrad/forward/forward.py:224-232 | `hstack`: value the concatenation, Jacobian the parts' rows in order; ValueError for no parts |
| ForwardExtended.StackParts | sparsegrad/forward/forward.py:227-231 | builds one derivative per part, each fitting that part |
| ForwardExtended.PartFor | sparsegrad/forward/forward.py:227-231 | a forward part keeps its derivative; a constant gets a new zero derivative |
| ForwardExtended.PartsDense | sparsegrad/forward/forward.py:224-232 | the built parts stand for exactly `PartJacobians` |
| ForwardExtended.StackedRows | sparsegrad/forward/forward.py:224-232 | the stacked Jacobian has one row per element of the stacked value |
| ForwardExtended.StackWithZero | sparsegrad/testing/test_stack.py:45 | `stack(f(x), 0)` has Jacobian `[[df], [0]]` |
| ForwardExtended.BroadcastTo | sparsegrad/forward/forward.py:234-238 | `broadcast_to` is `self` when the shape matches and otherwise `ones(shape) * self`: the broadcast shape (the target for a 0-d or one-element value), every element at its broadcast position, and the Jacobian rows repeated |
| ForwardExtended.OnesChain | sparsegrad/forward/forward.py:234-238 | chaining with ones of the target shape (or of one element) is broadcasting the rows |
| ForwardExtended.Seed | sparsegrad/forward/forward.py:248-262 | `seed(x)` has mshape (n, n) (None for a scalar), `s = 1`, `diag = 1`, no `M`: the identity Jacobian; `seed_sparsity` is its sparsity variant |
| ForwardExtended.Remap | sparsegrad/forward/forward.py:204-217 | `wrap` moves each Jacobian entry of payload row r to row `idx[r]`, columns unchanged; entries landing on the same row add up |
| ForwardExtended.NumericTerms | sparsegrad/forward/forward.py:204-217 | the numeric view of the terms keeps lengths and indices and takes `nvalue` of each payload |
| ForwardExtended.StackedPayloads | sparsegrad/forward/forward.py:204-217 | the stacked values of the payloads are the concatenated numeric payloads |
| ForwardExtended.PrepareNumeric | sparsegrad/forward/forward.py:204-217 | the shape and uniqueness checks see the same indices on the numeric view |
| ForwardExtended.SparseSum | sparsegrad/forward/forward.py:204-217 | forward `sparsesum` fails exactly as the numeric merge does; otherwise its value is the numeric merge and its Jacobian is the stacked Jacobian remapped by the indices (by their compressed positions when compressed) |
| ForwardExtended.SparseSumDense | sparsegrad/impl/sparsevec/sparsevec.py:43-46 | the dense path through `wrap` |
| ForwardExtended.SparseSumCompressed | sparsegrad/impl/sparsevec/sparsevec.py:48-52 | the compressed path through `wrap` |
| ForwardExtended.MergeCompressed | sparsegrad/impl/sparsevec/sparsevec.py:48-52 | the compressed merge of one stacked forward payload: unique indices, summed values, remapped Jacobian |
| ForwardExtended.RemapStacked | sparsegrad/forward/forward.py:204-217 | remapping a two-part stack is the sum of remapping each part |
| ForwardExtended.SeedMergedWithItself | sparsegrad/tests/test_sparsesum.py:30-34 | merging a seed with itself at the same indices gives Jacobian `2·I` |
| SparseVecs.Unique | sparsegrad/impl/sparsevec/sparsevec.py:48-52 | `np.unique` is strictly increasing and holds exactly the occurring indices |
| SparseVecs.UniqueCount | sparsegrad/impl/sparsevec/sparsevec.py:39-41 | `unique` is shorter than the indices exactly when some index repeats |
| SparseVecs.SearchSortedFinds | sparsegrad/impl/sparsevec/sparsevec.py:48-52 | `searchsorted` finds the position of an occurring index |
| SparseVecs.Compress | sparsegrad/impl/sparsevec/sparsevec.py:48-52 | each index is replaced by its position in `cidx`, in `[0, len(cidx))` |
| SparseVecs.Scatter | sparsegrad/impl/sparsevec/sparsevec.py:43-45 | the scatter-add has length n and entry j is the sum of all payload entries whose index is j |
| SparseVecs.Prepare | sparsegrad/impl/sparsevec/sparsevec.py:30-41 | no terms is an IndexError, differing lengths `ValueError('different shapes of terms')`, and with `check_unique` a repeated index `ValueError('indices not unique')` |
| SparseVecs.SparseSum | sparsegrad/impl/sparsevec/sparsevec.py:30-56 | `sparsesum` fails exactly when the checks do, with the same error; the compressed result keeps length n and the unique indices |
| SparseVecs.IndicesFit | sparsegrad/impl/sparsevec/sparsevec.py:36-38 | the concatenated indices and payloads, in term order, have equal length and lie in `[0, n)` |
| SparseVecs.MergeValues | sparsegrad/impl/sparsevec/sparsevec.py:43-52 | the default `wrap` returns the dense scatter-add; compressed, the values at `cidx` are the scatter-add at compressed positions |
| SparseVecs.DenseMergeSums | sparsegrad/impl/sparsevec/sparsevec.py:43-46 | `wrap` receives `(idx, v, y)` with y the scatter-add, and its result is returned |
| SparseVecs.CompressedMergeSums | sparsegrad/impl/sparsevec/sparsevec.py:48-52 | `cidx` is sorted, duplicate-free and holds exactly the occurring indices; entry i is the sum at `cidx[i]` |
| SparseVecs.DenseZeroOutside | sparsegrad/impl/sparsevec/sparsevec.py:43-45 | a position that no index names is 0 |
| SparseVecs.ScatterDistinct | sparsegrad/impl/sparsevec/sparsevec.py:43-45 | with distinct indices, each payload entry lands unchanged |
| SparseVecs.ScatterTotal | sparsegrad/impl/sparsevec/sparsevec.py:43-45 | the scatter-add preserves the total |
| SparseVecBare.Wrapped | sparsegrad/sparsevec/sparsevec.py:30-31 | each `(idx, v)` pair becomes a `sparsevec` of length n, in order |
| SparseVecBare.SparseSumBare | sparsegrad/sparsevec/sparsevec.py:26-35 | no terms gives `zeros(n)`; otherwise the merge with `check_unique` passed through, its error the duplicate-index ValueError; a pair of arrays whenever there are terms and `return_sparse` is set |
| SparseVecBare.BareDense | sparsegrad/sparsevec/sparsevec.py:34-35 | the dense result is the length-n scatter-add |
| SparseVecBare.BareCompressed | sparsegrad/sparsevec/sparsevec.py:32-33 | `return_sparse` gives `(result.idx, result.v)`: sorted unique indices with their sums |
| SparseVecBare.CompressedExample | sparsegrad/tests/test_sparsesum.py:26-28 | `[(0,1),(0,1),(3,-1)]` into 10 gives `[0,3]` / `[2,-1]` |
| SparseVecBare.DenseExample | sparsegrad/tests/test_sparsesum.py:36-38 | three ones at index 0 of length 1 give 3 |
| LegacySparseVec.SparseSum | sparsegrad/sparsevec.py:40-73 | the earlier `sparsesum`: IndexError for no terms, `ValueError('different shapes of terms')` exactly for differing lengths |
| LegacySparseVec.MatchesCurrent | sparsegrad/sparsevec.py:40-73 | on numbers, it is the current merge without the uniqueness check |
| LegacySparseVec.CompressedPositions | sparsegrad/sparsevec.py:65-69 | with `compress`, `cidx = unique(idx)`, the result has length n, and every remapped index lies in `[0, len(cidx))` |
| LegacySparseVec.SparseSumBare | sparsegrad/sparsevec.py:76-84 | the earlier `sparsesum_bare` never fails, gives `zeros(n)` for no terms and a pair exactly when there are terms and `compress` is set |
| LegacySparseVec.BareIgnoresUnique | sparsegrad/sparsevec.py:76-84 | its `unique` argument has no effect: it equals the current wrapper without the check |
| LegacySparseVec.SparseSumForward | sparsegrad/sparsevec.py:49-63 | on forward payloads, the value is the numeric merge and each Jacobian entry of payload row r moves to row `idx[r]` |
| LegacySparseVec.ForwardDense | sparsegrad/sparsevec.py:49-63 | the dense path with the row remap built in |
| LegacySparseVec.ForwardCompressed | sparsegrad/sparsevec.py:65-69 | the compressed path with the remap to compressed positions |
| LegacySparse.ToCsr | sparsegrad/sparse.py:111-137 | `tocsr` of every derivative kind; a `socsr` stores every entry as 1, exactly where its source is nonzero |
| LegacySparse.IdentityMatrix | sparsegrad/sparse.py:70-71 | `identityMatrix(n)` is the n×n identity for both factories |
| LegacySparse.DiagonalMatrix | sparsegrad/sparse.py:72-79 | the standard factory puts `x[i]` (a scalar repeated) at (i,i); the sparsity factory returns an identity |
| LegacySparse.ZeroMatrix | sparsegrad/sparse.py:80-81 | `zeroMatrix` is the zero matrix of the shape for both factories |
| LegacySparse.Broadcast01d | sparsegrad/sparse.py:90-91 | `broadcastMatrix01d(n)` is the n×1 ones column |
| LegacySparse.StdDot | sparsegrad/sparse.py:86-87 | the standard `dot` is the matrix product, or scaling by a scalar; dimension mismatch fails |
| LegacySparse.SpDot | sparsegrad/sparse.py:168-179 | the sparsity `dot` asserts `a.cols == b.rows`, returns a zero of `(a.rows, b.cols)` for a zero operand and the other operand for an identity |
| LegacySparse.SpDotIsPatternOfProduct | sparsegrad/sparse.py:168-179 | on patterns, the sparsity `dot` is the pattern of the product |
| LegacySparse.Chain | sparsegrad/sparse.py:82-85 | the standard `chain` multiplies by a scalar `a` and is the matrix product otherwise; the sparsity `chain` returns the other operand when either side is scalar |
| LegacySparse.EForward | sparsegrad/sparse.py:189-193 | the sparsity `eforward` returns `da` unchanged unless a scalar argument yields a vector result (then it chains with the ones column) |
| LegacySparse.StdEForwardRule | sparsegrad/sparse.py:92-99 | the standard `eforward` is `diag(dff)·da` |
| LegacySparse.StdEForwardScalar | sparsegrad/sparse.py:92-99 | for a 0-d result the standard `eforward` is `chain(dff(), da)`: the number `dff()` times `da` |
| LegacySparse.StdEForwardBroadcast | sparsegrad/sparse.py:92-99 | with a scalar argument and a vector result it is `diag(dff)·(B·da)` |
| LegacySparse.DotTracks | sparsegrad/sparse.py:168-179 | the sparsity `dot` of covering patterns covers the standard `dot` |
| LegacySparse.ChainTracks | sparsegrad/sparse.py:162-167 | the same for `chain` |
| LegacySparse.EForwardTracks | sparsegrad/sparse.py:189-193 | the sparsity `eforward`, which returns `da` (broadcast when needed), covers the standard one |
| LegacySparse.AddDeriv | sparsegrad/sparse.py:29-36 | `self.s += u` adds two scalars or two matrices of one shape; a scalar 0 next to a matrix gives the matrix; a nonzero scalar next to a matrix is scipy's NotImplementedError, matrices of different shapes a ValueError |
| LegacySparse.Step | sparsegrad/sparse.py:29-36 | one accumulator call stores the first `u` (as a matrix for `sosum`) and adds later ones, so a scalar sum followed by a matrix fails exactly when the scalar is nonzero, and the reverse likewise; `sosum` fails on a scalar |
| LegacySparse.Finish | sparsegrad/sparse.py:37-41 | `value()` returns the scalar or the CSR matrix; `sosum.value()` is the pattern of the sum, and fails when nothing was added |
| LegacySparse.Accumulator.constructor | sparsegrad/sparse.py:26-28 | a new accumulator holds no sum |
| LegacySparse.Accumulator.Call | sparsegrad/sparse.py:29-36 | a call updates the running sum as `Step` (with scipy's zero/nonzero scalar rule), records `u`, and changes nothing when it fails |
| LegacySparse.Accumulator.Value | sparsegrad/sparse.py:37-41 | `value()` is `Finish` of the sum: None exactly when nothing was added (an error for `sosum`) |
| LegacySparse.TotalSome | sparsegrad/sparse.py:25-41 | the accumulated sum is absent exactly for no calls |
| LegacySparse.TotalSparsityMatrix | sparsegrad/sparse.py:139-153 | a `sosum` holds a matrix |
| LegacySparse.StandardTotalIsSum | sparsegrad/sparse.py:25-41 | `MatrixSum` of matrices is their sum |
| LegacySparse.TotalTracks | sparsegrad/sparse.py:139-153 | the accumulated patterns cover the accumulated standard sum |
| LegacyForward.NValue | sparsegrad/forward.py:88-93 | `nvalue` is `.value` of a `value` and the argument itself otherwise |
| LegacyForward.FactoryCheck | sparsegrad/forward.py:54-58 | the loop's check fails with "inconsistent matrix factories" exactly when two `value` arguments carry different factories; otherwise `M` is the last factory seen |
| LegacyForward.LastFactoryAfter | sparsegrad/forward.py:54-58 | without a conflict, the last factory is every factory present |
| LegacyForward.CollectArgs | sparsegrad/forward.py:50-64 | the argument loop collects the `nvalue`s and derivative slots (None for a non-`value`), the factory, and whether any argument has a derivative |
| LegacyForward.ConflictExtends | sparsegrad/forward.py:54-58 | a conflict in a prefix is a conflict of the whole list |
| LegacyForward.Advance | sparsegrad/forward.py:65-70 | one `forward` step skips arguments without derivative and feeds `eforward` to the accumulator otherwise |
| LegacyForward.Feed | sparsegrad/forward.py:65-70 | feeding the accumulator does that step in place |
| LegacyForward.ForwardTerms | sparsegrad/forward.py:65-71 | the accumulation loop ends with the accumulator's value, or the first error |
| LegacyForward.RunStaysFailed | sparsegrad/forward.py:65-70 | after an error, later steps keep it |
| LegacyForward.Expr | sparsegrad/forward.py:49-71 | `expr.__init__` computes `ExprSpec`: the check, then `dvalue` from the accumulation |
| LegacyForward.ExprConflict | sparsegrad/forward.py:57-58 | inconsistent factories fail the assertion |
| LegacyForward.ExprWithoutValues | sparsegrad/forward.py:66-71 | with no `value` arguments, `dvalue` and `M` stay None |
| LegacyForward.RunIsTotal | sparsegrad/forward.py:65-70 | the accumulation is the total of the `eforward` contributions |
| LegacyForward.ContribsAreTotal | sparsegrad/forward.py:65-70 | the same, from the contributions |
| LegacyForward.ContribsTrack | sparsegrad/sparse.py:189-193 | sparsity contributions cover the standard ones |
| LegacyForward.RunTracks | sparsegrad/forward.py:65-71 | the sparsity accumulation covers the standard one |
| LegacyForward.ExprTracks | sparsegrad/forward.py:49-71 | an `expr` over sparsity seeds has a `dvalue` covering the standard `dvalue` |
| LegacyForward.Seed | sparsegrad/forward.py:73-78 | `seed` gives `dvalue = 1` for a scalar and the identity for a vector |
| LegacyForward.SeedSparsity | sparsegrad/forward.py:80-82 | `seed_sparsity` uses the sparsity factory |
| LegacyForward.SeedSparseGradient | sparsegrad/forward.py:84-86 | `seed_sparse_gradient` uses the standard factory |
| LegacyForward.SeedTracks | sparsegrad/forward.py:73-86 | the sparsity seed covers the standard seed |
| LegacyForward.SeedCounterparts | sparsegrad/forward.py:73-86 | a sparsity seed and a standard seed are counterpart arguments |
| MultipleDispatch.SupersedesReflexive | sparsegrad/impl/multipledispatch/dispatch.py:23-27 | `supersedes(a, a)` |
| MultipleDispatch.SupersedesTransitive | sparsegrad/impl/multipledispatch/dispatch.py:23-27 | `supersedes` is transitive |
| MultipleDispatch.SupersedesAntisymmetric | sparsegrad/impl/multipledispatch/dispatch.py:23-27 | mutual supersession means equal signatures |
| MultipleDispatch.Drop | sparsegrad/impl/multipledispatch/dispatch.py:99-104 | the filter keeps exactly the matches the new signature does not supersede, staying duplicate-free |
| MultipleDispatch.Find | sparsegrad/impl/multipledispatch/dispatch.py:93-98 | `_find` returns only registered signatures that the call supersedes |
| MultipleDispatch.FindKeepsInv | sparsegrad/impl/multipledispatch/dispatch.py:99-105 | the result is an antichain covering every applicable signature |
| MultipleDispatch.AppendKeepsAntichain | sparsegrad/impl/multipledispatch/dispatch.py:99-104 | one loop step keeps the antichain |
| MultipleDispatch.AppendKeepsCover | sparsegrad/impl/multipledispatch/dispatch.py:99-104 | one loop step keeps the cover |
| MultipleDispatch.FindIsMinimal | sparsegrad/impl/multipledispatch/dispatch.py:93-105 | `_find` is exactly the set of minimal applicable signatures, without repetition |
| MultipleDispatch.Raise | sparsegrad/impl/multipledispatch/dispatch.py:47-62 | `RaiseDispatchError` raises DispatchError, with the ambiguity message exactly when candidates exist |
| MultipleDispatch.Dispatcher.constructor | sparsegrad/impl/multipledispatch/dispatch.py:70-75 | a new dispatcher has no functions, signatures or cache |
| MultipleDispatch.Dispatcher.Add | sparsegrad/impl/multipledispatch/dispatch.py:77-91 | `add` raises ValueError for a registered signature and changes nothing; otherwise it stores the function, appends the signature and clears the cache |
| MultipleDispatch.Dispatcher.Invalidate | sparsegrad/impl/multipledispatch/dispatch.py:90-91 | `_invalidate` clears the cache only |
| MultipleDispatch.Dispatcher.FindMatches | sparsegrad/impl/multipledispatch/dispatch.py:93-105 | the loop computes `Find` |
| MultipleDispatch.Dispatcher.DispatchSlowpath | sparsegrad/impl/multipledispatch/dispatch.py:107-118 | the function when all candidates share it, a dispatch error otherwise, cached under the signature |
| MultipleDispatch.Dispatcher.Dispatch | sparsegrad/impl/multipledispatch/dispatch.py:132-137 | `dispatch` returns the cached choice or the slow path's, with the same meaning |
| MultipleDispatch.Dispatcher.Invoke | sparsegrad/impl/multipledispatch/dispatch.py:124-130 | `__call__` runs the resolved function or raises the dispatch error |
| MultipleDispatch.ResolveMeaning | sparsegrad/impl/multipledispatch/dispatch.py:93-118 | a call resolves iff some minimal applicable signature exists and all of them map to one function, which is the one called; otherwise the error lists exactly the minimal ones |
| DispatchExample.ScenarioFind | sparsegrad/impl/multipledispatch/tests/test.py:24-38 | for `(int, int)`, `(object,int)` and `(int,object)` are minimal; after adding `(int,int)` only it is |
| DispatchExample.FirstResolve | sparsegrad/impl/multipledispatch/tests/test.py:24-33 | the first call is ambiguous and raises DispatchError |
| DispatchExample.SecondResolve | sparsegrad/impl/multipledispatch/tests/test.py:34-38 | after adding `(int,int)` the call resolves to it |
| DispatchExample.RegisterThree | sparsegrad/impl/multipledispatch/tests/test.py:24-33 | the three registrations of the test produce that registry |
| DispatchExample.AmbiguousThenResolved | sparsegrad/impl/multipledispatch/tests/test.py:24-38 | the whole test's sequence is modelled on a dispatcher: an error, then `(int,int)`'s function, because `add` cleared the cached error |
| PriorityRouting.WinnerIsFirstHighest | sparsegrad/base/expr.py:105-113 | the default stands exactly when no eligible element beats the default priority (with a None default, when none is eligible); otherwise the winner is the first eligible element of the greatest priority |
| PriorityRouting.ChosenFromList | sparsegrad/base/routing.py:13-14 | with a None default and an eligible element, the result is an element of the list |
| BaseRouting.ImplementationPriority | sparsegrad/base/routing.py:4-6 | `__array_priority__`, or 0 if absent |
| BaseRouting.FindImplementation | sparsegrad/base/routing.py:8-15 | the loop returns the first strictly-highest-priority element, or the default |
| FunctionsRouting.GetImplementation | sparsegrad/functions/routing.py:24-26 | the pair `(__array_priority__ or 0, obj)` |
| FunctionsRouting.FindImplementation | sparsegrad/functions/routing.py:28-35 | the same choice through `get_implementation` |
| FunctionsRouting.ApplyRegistry | sparsegrad/functions/routing.py:42-50 | `apply` holds `apply_numeric` for `(object, object, object)` and `(ndarray, object, object)` |
| FunctionsRouting.ApplyResolvesNumeric | sparsegrad/functions/routing.py:42-50 | every three-argument call of `apply` resolves to `apply_numeric` |
| BaseExpr.FindArr | sparsegrad/base/expr.py:105-113 | `_find_arr` considers only elements having the attribute, and returns the winner of the priority fold |
| BaseExpr.Views | sparsegrad/base/expr.py:44-46 | forward values have priority 100 and the forward methods; constants have neither |
| BaseExpr.FirstVar | sparsegrad/base/expr.py:105-113 | the first forward argument, if any |
| BaseExpr.RoutesToFirstVar | sparsegrad/base/expr.py:105-113 | among forward values and constants with a module default of priority 0, `_find_arr` picks the first forward value, or the default when there is none |
| BaseExpr.HStack | sparsegrad/base/expr.py:126-139 | `hstack`/`stack` routes to the first forward part (a forward result with the stacked Jacobian) or to numpy; no part is numpy's ValueError |
| BaseExpr.Sum | sparsegrad/base/expr.py:131-135 | `sum` delegates to the forward `sum` for an expression and to `np.sum` otherwise |
| BaseExpr.SparseSum | sparsegrad/base/expr.py:142-147 | `sparsesum` routes on the payloads: the numeric merge either way, a forward result iff a payload is forward |
| BaseExpr.BroadcastToLen | sparsegrad/base/expr.py:154-156 | `broadcast_to(x, (m,))` repeats a scalar, keeps a vector of length m, and is the numpy ValueError otherwise |
| Common.TruePositions | sparsegrad/base/expr.py:170-171 | `arange(n)[mask]`: increasing positions in `0..n-1`, exactly those where the mask is true |
| BaseExpr.Complement | sparsegrad/base/expr.py:172 | `np.logical_not` of the mask |
| BaseExpr.BranchPartition | sparsegrad/base/expr.py:169-172 | `ixtrue` and `ixfalse` are increasing, lie in `0..n-1` and partition it: j is in `ixtrue` iff `cond[j]` |
| BaseExpr.BranchTermsFit | sparsegrad/base/expr.py:173-179 | the two sparse vectors pass the merge's checks, with indices `ixtrue + ixfalse` |
| BaseExpr.Branch | sparsegrad/base/expr.py:159-179 | a scalar condition calls only the chosen callback with None; a vector one broadcasts each callback's result to its index count (failing when either cannot) and merges to a length-n vector |
| BaseExpr.MergeOfPartition | sparsegrad/base/expr.py:173-179 | scattering `t[ixtrue]` and `f[ixfalse]` selects `t` where the mask holds and `f` elsewhere |
| BaseExpr.MergeAt | sparsegrad/base/expr.py:173-179 | the same at one position |
| BaseExpr.BranchSelects | sparsegrad/base/expr.py:159-179 | when the callbacks give `t[ix]` and `f[ix]`, `branch` is the elementwise selection |
| BaseExpr.BranchOfGathers | sparsegrad/base/expr.py:159-179 | `branch(c, lambda ix: t[ix], lambda ix: f[ix])` is `where(c, t, f)` |
| BaseExpr.BranchOfScalars | sparsegrad/base/expr.py:159-179 | constant callbacks give a vector of a where the mask holds and b elsewhere |

## Left out

- Derivative formula tables (`func.py`, `functions/ufunc.py`) are not part of this model. The local derivative passed to `chain`/`fma`/`apply` is an input.
- IEEE floating point: numbers are reals. Division requires a nonzero divisor; NaN and infinity are not modelled, and dtypes are not modelled.
- scipy and numpy internals are abstract matrices or sequences: CSR checks, `tocsc`/`tocsr`, `sort_indices`, `scipy.sparse.vstack` and explicitly stored zeros.
- In-place binarisation in `sparsity_csr.__init__` (`data.fill(1)`): the model keeps `M` when it is already a pattern and builds a binarised copy otherwise. It does not model changing a shared `M` in place.
- Broadcasting a length-1 vector factor to more rows in `chain`/`broadcast`: the source builds an inconsistent factor there. The model requires the local derivative to be scalar or of the output's length.
- Only 0-d and 1-d values; numpy's n-d arrays are not modelled.
- The comparison operators and ufunc methods generated by `exec`.
- Dispatcher extras: `super_signature`, `__doc__`, pickling, `register`/`dispatch` decorators and `MethodDispatcher`.
- `functions/utils.py` and `utils.py` are not part of this model.
- `__rsub__` with a forward other operand passes the function `nvalue` as output; only the constant case is modelled (`Forward.RSubConst`).
- `bool_expr.branch` (the `cond.hasattr('branch')` path) is not modelled.
- BaseExpr.Branch: only numeric callbacks are modelled. Forward-valued callbacks and the `branch_join` call on a forward result are left out; the join itself is `Forward.BranchJoin`.
- `dot`, `where` and `broadcast_to` in `base/expr.py` are one-line routings through `_find_arr`. The routing is proved generically (`BaseExpr.FindArr`, `BaseExpr.RoutesToFirstVar`) and the targets are modelled in `ForwardExtended`/`Forward`.
- The dispatch-decorated `sparsesum`/`hstack` delegations in `base/routing.py` and `functions/routing.py` are single calls of `impl.sparsesum`/`impl.hstack`, which are modelled.
- `apply_numeric`'s body `func.func(*args)` calls a numeric function that is not part of this model. Only its registration and resolution are modelled.
- The Python `None` object as an element of the list given to `find_implementation` is not modelled.
- numpy's broadcast error messages are abbreviated to the ValueError text used in the model.
- BaseExpr.HStack: the numpy path returns the concatenated values only; numpy's own dtype rules are not modelled.
- Dimension checks that numpy or scipy raise deep inside a call are preconditions: `fma` with no terms, and operands whose lengths numpy cannot broadcast (neither 0-d, equal nor of length 1).
- A Jacobian whose factor `diag` is a length-1 vector taken to n > 1 rows with a 0-d local derivative (`Forward.LengthOneFactorMisfits`): the source keeps a factor shorter than the new rows, which `_evaluate`'s `np.repeat` turns into numpy's ValueError or an inconsistent Jacobian. `ChainOk`/`BroadcastOk` exclude it, and so do the operators below.
- AddValues: length-1 broadcasting is modelled; the requires `ChainBoth` excludes only the length-1 factor case above.
- SubValues: the same.
- MulValues: the same.
- DivValues: the same.
- RDivValues: the same.
- AddConst: `BroadcastOk` excludes only the length-1 factor case above.
- SubConst: the same.
- RSubConst: `ChainOk` excludes only the length-1 factor case above.
- MulConst: the same.
- DivConst: the same.
- RDivConst: the same.
- BroadcastTo: the same.
- Where: `WhereShapes` asks for operand and condition shapes that are equal or 0-d; a length-1 operand broadcast to n elements is not modelled.
- GetItemArrayAsWritten: when `M` is `None` and `diag` is a number, a wrapped index past the end raises nothing in the source and builds a CSR matrix with a column index out of range; that input is excluded by a requires.
- Invoke: `__call__` catches a `KeyError` raised by the cached function itself and re-runs the call through the slow path (`dispatch.py:126-130`); the model does not retry.

## Findings

| source | as written | input that shows it | evidently intended | confidence | as-written member | corrected member |
|---|---|---|---|---|---|---|
| sparsegrad/forward/forward.py:166-168 | negative indices are wrapped as `(idx + n) % n` with `n = len(idx)`, the number of indices | index `[-1]` into a value of length 5: the Jacobian row selected is 0, while `value[idx]` takes element 4 | wrap with `len(self.value)`, so the Jacobian row matches the element taken | not executed | Forward.GetItemArrayAsWritten with Indexing.WrapAsWritten (shown by Indexing.WrapAsWrittenMisses; `[-1, 0, 1]` into 2 values is an IndexError, Indexing.WrapAsWrittenOverruns) | Forward.GetItemArray with Indexing.WrapIndices (proved by Indexing.WrapMatchesTake) |
