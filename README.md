# GPR1D core, modelled in Dafny

This project models the discrete logic of GPR1D, a one-dimensional
Gaussian-process regression library. The floating-point numerics are
left out. The model covers five parts:

- **Kernel bookkeeping** (`kernels.dfy`, `construction.dfy`). A kernel is a
  tree: a primitive class holding a hyperparameter vector and a constant
  vector, or a sum, product or symmetric operator over child kernels. The
  getters concatenate the children's vectors. The setters route slices of a
  flat vector back to the children, and each setter can raise
  `AttributeError` or `ValueError`. The model also covers the primitive
  constructors with their argument checks (including the Matérn `nu`
  half-integer rule), the operator constructors with their naming rules, and
  `__copy__`, which rebuilds a kernel through those constructors.
- **Evaluation combinatorics** (`dermat.dfy`, `evaluation.dfy`).
  - The operators route the hyperparameter index `hder` to their children.
  - The product kernel builds a derivative-distribution matrix `dermat`,
    modelled both as the loop the source runs and as a function.
  - Constant, noise, linear and polynomial kernels are evaluated in exact
    real arithmetic. The other primitives are an oracle that keeps only
    their error conditions.
  - Products of linear and polynomial kernels are computed in closed form,
    both as written and under the product rule.
- **Codename parsing** (`legacy_codename.dfy`, `codename.dfy`, `strings.dfy`).
  - The underscore scheme of `GPR1D.py`: `Kernel_Constructor`,
    `Recursive_Kernel_Constructor` and `Kernel_Reconstructor`.
  - The bracket grammar of `src/gpr1d/core/utils.py`: `KernelConstructor`,
    its grouping loop, a serialiser with a parse-after-serialise theorem, and
    `KernelReconstructor`.
- **Data conditioning** (`conditioning.dfy`). The first-fit binning loop of
  `__condition_data`: running means, spreads (through an uninterpreted
  `sqrt`) and counts.
- **Fit control** (`engine.dfy`, `search.dfy`).
  - The `GPR1D` object is a class whose setters keep its settings invariant,
    derive the bounds table and reset the error-fit flag.
  - The accessors return the stored fit results.
  - The gradient-ascent loop runs against an LML oracle.
  - The random-restart selection of `GPRFit` takes its uniform draws and the
    outcome of each fit as inputs.

Kernels are values. A setter or `copy.copy` returns the kernel it leaves
behind, or the exception it raises. `10**x`, `log10` and `sqrt` are
function-valued parameters.

Where the code and its documentation disagree, the model follows the code.
`__condition_data` compares the bounds `lb`/`ub` and the merging radius `cn`
against the data after it has been divided by its scale, not against the
raw data (GPR1D.py:1918-1933). The model does the same.

## Model

| member | source | states |
|---|---|---|
| `Kernels.GetHyperparameters` | GPR1D.py:68-72 | A kernel's hyperparameters (a primitive's own, an operator's gathered from its children) in linear space, or each entry passed through `log10` when `log` is set. |
| `Kernels.GetHyperparametersList` | GPR1D.py:182-186 | An operator returns its children's vectors concatenated in order. In log space that equals the `log10` of the linear concatenation. |
| `Kernels.ParamsListSplit` | GPR1D.py:194-198 | An operator's concatenated vector splits at any child boundary into the vectors of the children before it and after it. |
| `Kernels.SetParams` | GPR1D.py:210-235 | The `ndone` walk over the children returns exactly the kernel or the error that the setter specification `WithParams` gives. |
| `Kernels.WalkChildren` | GPR1D.py:222-230 | The `for kk in self._kernel_list` loop, with `ndone` counting the values handed out so far, yields exactly the children that the list setter `WithParamsList` gives, or its first error. |
| `Kernels.SetChild` | GPR1D.py:224-230 | A child without parameters is left as it is; otherwise its setter gets `theta[ndone:nhere]`, or all of `theta[ndone:]` when `nhere == nhyps`, and the list setter from this child on is this child's result followed by the rest of the walk, or this child's error. |
| `Kernels.SetThenGet` | GPR1D.py:95-111 | With at least as many values as the kernel holds, the setter succeeds. The getter then returns the first values given (after `10**` in log space). The other vector and the tree's shape are unchanged. |
| `Kernels.SetListThenGet` | GPR1D.py:224-231 | Children without values are skipped. Each other child gets its own slice and the last one gets the remainder. The composite then reads back the first `n` values, its other vector is unchanged, and every child keeps its shape. |
| `Kernels.SetOutcome` | GPR1D.py:129-143 | A setter succeeds exactly when the kernel (or some child) stores the vector and enough values are given. It raises `AttributeError` when nothing is stored, and `ValueError` when too few values are given. |
| `Kernels.SetLogCommutes` | GPR1D.py:218-230 | Handing children unconverted slices together with `log` gives the same kernel as converting the whole vector with `10**` first. |
| `Kernels.SetListLogCommutes` | GPR1D.py:224-231 | The same, for the routing over a list of children. |
| `Kernels.StepSkip` | GPR1D.py:225-226 | A child without values receives nothing, and routing continues with the same remaining vector. |
| `Kernels.StepErr` | GPR1D.py:227-230 | When a child's own setter raises, the operator's setter raises that same exception. |
| `Construction.DefaultArgs` | GPR1D.py:493-1286 | Every class has one default value per constructor argument. |
| `Construction.HalfInteger` | GPR1D.py:945 | `float(int(nu)) + 0.5` lies within half a unit of `nu`, is at least 0.5, and is a half-integer. |
| `Construction.HalfIntegerIdempotent` | GPR1D.py:953-954 | Bringing `nu` to a half-integer twice is the same as once, so copying a Matérn kernel keeps `nu`. |
| `Construction.ConstructSpec` | GPR1D.py:933-948 | A primitive constructor succeeds exactly on admissible arguments and raises `ValueError` otherwise. It stores each argument at its place in the hyperparameter or constant vector. |
| `Construction.SetKeepsWellShaped` | GPR1D.py:95-143 | A successful setter leaves a kernel whose vectors keep the sizes its class gives them. |
| `Construction.Default` | GPR1D.py:1328-1345 | `Kernel_Constructor`'s default kernel of each class is well shaped and of that class. |
| `Construction.KernelArgs` | GPR1D.py:347-356 | At most one kernel is kept per argument, and a first argument that is a kernel is kept first. |
| `Construction.DashNamesJoin` | GPR1D.py:353-356 | The `klist` naming loop produces the `-` join of the child names, after the name so far when that is non-empty. |
| `Construction.NewOperatorList` | GPR1D.py:351-359 | `klist` construction succeeds exactly with at least two kernels (one for `Sym_`) and raises `TypeError` otherwise. The name is the prefix plus the `-` join of the child names. `Sym_` keeps only the first child. |
| `Construction.NewOperatorPositional` | GPR1D.py:345-350 | Positional construction of a sum or product concatenates the child names without a separator. |
| `Construction.CopySpec` | GPR1D.py:361-366 | A copy succeeds exactly when every stored value is admissible to its constructor, and raises `ValueError` otherwise. The copy has the same tree of classes. Every primitive keeps its hyperparameters exactly and takes its constants as `CopiedCsts` gives them: a Matérn `nu` becomes `HalfInteger(nu)`, and every other constant vector is kept as it is. Every operator is renamed by the `-` join of its children's names. |
| `Construction.CopyPrimSpec` | GPR1D.py:501-504 | The same promise for a primitive, which is rebuilt from its own stored values: exactly its hyperparameters, and its constants as `CopiedCsts` gives them. |
| `Construction.CopyPrimExact` | GPR1D.py:501-504 | A copyable primitive's copy is the primitive of the same class with the same hyperparameter vector and the constants `CopiedCsts` gives. |
| `Construction.CopyOpSpec` | GPR1D.py:422-427 | The same promise for an operator, which is rebuilt through `klist` from copies of its children. Each child's copy keeps that child's hyperparameters exactly and takes its constants from `CopiedCsts`. |
| `Construction.CopyListSpec` | GPR1D.py:362-364 | Copying the children succeeds exactly when each child is copyable. The first failure is `ValueError`. Each copy has its child's tree, with the hyperparameters kept exactly and the constants from `CopiedCsts`. |
| `Construction.ConstructRoundTrip` | GPR1D.py:493-504 | A freshly constructed primitive is already in the form a copy produces. |
| `Construction.CopyIsCanonical` | GPR1D.py:361-366 | Every successful copy is in that canonical form. |
| `Construction.CanonicalCopy` | GPR1D.py:470-475 | A copy of a kernel in canonical form is the same kernel. |
| `Construction.CopyIdempotent` | GPR1D.py:361-366 | Copying a copy gives the same kernel again. |
| `Construction.DefaultCopy` | GPR1D.py:1328-1345 | `Kernel_Constructor`'s kernels copy to themselves. |
| `Dermat.DerMatrix` | GPR1D.py:374-387 | The stacking-and-increment loops build exactly the matrix `DerMat(nks, der)`. |
| `Dermat.OnePass` | GPR1D.py:378-386 | One iteration of the outer loop (the `nks - 1` doublings, then one increment per row) turns the matrix after `p` passes into the matrix after `p + 1`. |
| `Dermat.Stack` | GPR1D.py:378-380 | `nks - 1` rounds of `vstack` double the matrix each time. |
| `Dermat.IncrementPass` | GPR1D.py:381-385 | The row loop raises, in each row, the entry at that row's column by one. |
| `Dermat.Dup` | GPR1D.py:378-380 | Doubling `t` times multiplies the row count by `2**t` and adds no new rows. |
| `Dermat.ColumnIndex` | GPR1D.py:382-384 | The column chosen for each row is a valid column. |
| `Dermat.FloatColumnIndex` | GPR1D.py:382-384 | The source's `int((rem + fac) % nks)`, computed in floating-point division and float `%`, equals the integer formula `(row % nks + row / nks**abs(der)) % nks`. |
| `Dermat.Passes` | GPR1D.py:377-385 | After `p` passes the matrix has `2**((nks-1) p)` rows of `nks` entries each. |
| `Dermat.PassesRowSums` | GPR1D.py:381-385 | After `p` passes every entry is non-negative and every row sums to `p`. |
| `Dermat.SignOdd` | GPR1D.py:386-387 | The sign step keeps the matrix's dimensions. |
| `Dermat.SignOddPositive` | GPR1D.py:386-387 | A positive order leaves every entry as it is. |
| `Dermat.DerMatShape` | GPR1D.py:374-387 | The matrix has `2**((nks-1) abs(der))` rows of `nks` entries, and in every row the absolute entries add up to `abs(der)`. |
| `Dermat.DerMatTwoFirstOrder` | GPR1D.py:374-387 | Two factors at first order give the rows `(sd, 0)` and `(0, sd)`, with `sd` the sign of `der`. |
| `Dermat.DerMatTwoSecondOrder` | GPR1D.py:374-387 | As written, two factors at second order give `(2,0), (0,2), (2,0), (0,2)`. The cross terms of the product rule are missing. |
| `Dermat.DerMatThreeFirstOrder` | GPR1D.py:374-387 | As written, three factors at first order give four rows, and the second factor's row appears twice. |
| `Dermat.LeibnizRows` | GPR1D.py:372-401 | The corrected rows keep one entry per factor. |
| `Dermat.LeibnizFirstOrder` | GPR1D.py:372-401 | Under the product rule at first order, row `j` differentiates factor `j` alone, and no two rows are equal. |
| `Dermat.LeibnizSecondOrder` | GPR1D.py:372-401 | Under the product rule at second order, the row for the pair `(a, b)` differentiates factor `a` in x1 and factor `b` in x2. |
| `Dermat.LeibnizSecondOrderDistinct` | GPR1D.py:372-401 | No two second-order rows of the product rule are equal, so each term appears once. |
| `Evaluation.Shift` | GPR1D.py:331-339 | The index handed on is `None` exactly when `hder` is `None`, and is otherwise `hder` less the hyperparameters before the child. |
| `Evaluation.OwnerUnique` | GPR1D.py:389-399 | For an index `0 <= hder < n` exactly one child receives an index inside its own range. |
| `Evaluation.OffsetAll` | GPR1D.py:394-399 | The offsets of all children add up to the operator's hyperparameter count. |
| `Evaluation.EvalSumRouted` | GPR1D.py:329-340 | A sum is the in-order sum of its children, child `j` evaluated at `hder - Offset(j)`. The first error wins. |
| `Evaluation.EvalRowRouted` | GPR1D.py:388-400 | One product row is the product of its factors, factor `j` at its own order and at `hder - Offset(j)`. |
| `Evaluation.PointFree` | GPR1D.py:484-580 | Whether an evaluation raises, and which exception, does not depend on the points. |
| `Evaluation.PointFreeSum` | GPR1D.py:329-340 | Whether a sum raises, and which exception, does not depend on the points. |
| `Evaluation.SymmetricEven` | GPR1D.py:436-447 | A symmetric kernel gives the same value at `x1` and at `-x1`. |
| `Evaluation.RowsValue` | GPR1D.py:388-400 | Rows that all evaluate without error add up to the sum of their products. |
| `Evaluation.RowValue` | GPR1D.py:392-399 | When every factor evaluates at its own order without error, the row is the product of those values. |
| `Evaluation.LinearEval` | GPR1D.py:554-580 | The linear kernel gives `v^2 x1 x2` at order 0, `v^2 x1` at order 1 (in `x2`), `v^2 x2` at order -1 (in `x1`) and `v^2` at order ±2. |
| `Evaluation.PolyEval` | GPR1D.py:600-629 | The polynomial kernel gives `v^2 x1 x2 + b^2` at order 0, and the linear kernel's derivatives at the other orders. |
| `Evaluation.DerMatZero` | GPR1D.py:375-377 | At order 0 the matrix is a single row of zeros. |
| `Evaluation.TwoFactorRowsLow` | GPR1D.py:374-387 | For two factors at orders 0 and ±1, both rules use the same rows. |
| `Evaluation.TwoFactorRowsHigh` | GPR1D.py:374-387 | For two factors at order ±2, the rows as written differ from the product rule's rows `(2,0), (-1,1), (1,-1), (0,2)`. |
| `Evaluation.ProductLinearLinear` | GPR1D.py:372-401 | `Product(Linear(v1), Linear(v2))` gives `v1^2 v2^2 (x1 x2)^2`, `2 v1^2 v2^2 x1^2 x2`, `2 v1^2 v2^2 x1 x2^2` and `4 v1^2 v2^2 x1 x2` at orders 0, 1, -1 and ±2, under either rule. |
| `Evaluation.LinearPolySecond` | GPR1D.py:372-401 | At order ±2, `Product(Linear(v1), Poly(v2, b))` gives `4 v1^2 v2^2 x1 x2 + v1^2 b^2` under the product rule. As written it gives `4 v1^2 v2^2 x1 x2 + 2 v1^2 b^2`. |
| `Evaluation.LinearPolySecondDiffers` | GPR1D.py:374-387 | At `v1 = v2 = b = 1` and `x1 = x2 = 0`, the code as written gives 2 where the mixed derivative is 1. |
| `Evaluation.ThreeFactorRows` | GPR1D.py:374-387 | For three factors at first order, the rows as written repeat `(0,1,0)`, and the product rule's rows do not. |
| `Evaluation.LinearTripleFirst` | GPR1D.py:372-401 | `Product(Linear, Linear, Linear)` differentiated once in x2 gives `3 V x1^3 x2^2` under the product rule and `4 V x1^3 x2^2` as written, where `V = v1^2 v2^2 v3^2`. |
| `Evaluation.LinearTripleFirstDiffers` | GPR1D.py:374-387 | At `v = 1` and `x1 = x2 = 1`, the code as written gives 4 where the derivative is 3. |
| `LegacyCodename.PrimMatch` | GPR1D.py:1328-1345 | Selects a class whose codename begins the name, and `None` only when no codename does. |
| `LegacyCodename.PrimMatchCode` | GPR1D.py:1328-1345 | In the order C, n, L, P, SE, RQ, MH, NN, GGL, every codename selects its own class. |
| `LegacyCodename.PrimKernel` | GPR1D.py:1322-1346 | `Kernel_Constructor` returns a well-shaped default primitive of a class whose codename begins the name. |
| `LegacyCodename.UnderscoreSplit` | GPR1D.py:1355 | `^(.*?)_(.*)$` splits at the first `_`. Neither group holds a line break, one final line break is allowed, and a name without `_` does not match. |
| `LegacyCodename.UnderscoreSplitOf` | GPR1D.py:1355-1357 | Reading a name of the form `head_body` back gives exactly its two groups. |
| `LegacyCodename.BuildCode` | GPR1D.py:1367-1368 | A bare codename builds its default primitive. |
| `LegacyCodename.OpWordDispatch` | GPR1D.py:1361-1366 | The word before the `_` selects its own operator constructor, called with `klist`. |
| `LegacyCodename.BuildOpOfCodes` | GPR1D.py:1355-1366 | `Op_c1-...-ck` over codenames is that operator's `klist` constructor applied to the default primitives. |
| `LegacyCodename.BuildRoundTrip` | GPR1D.py:1349-1369 | A `klist` sum or product of at least two default primitives, or a symmetric kernel of at least one, rebuilds from its own name to exactly that kernel. |
| `LegacyCodename.PositionalNameRejected` | GPR1D.py:345-350 | A positionally built name such as `Sum_SEn` reads back as a single child, and the constructor then raises `TypeError`. |
| `LegacyCodename.OneChildRejected` | GPR1D.py:1357-1362 | `Sum_`/`Prod_` with no `-` in the rest names one child and raises `TypeError`. |
| `LegacyCodename.NestedChildRejected` | GPR1D.py:1357-1360 | A first child that is itself an operator name is cut at its first `-`, and the call raises `TypeError`. |
| `LegacyCodename.BuildErr` | GPR1D.py:1358-1360 | An exception raised while building a child is raised by the whole call. |
| `LegacyCodename.NestedNameRejected` | GPR1D.py:1349-1369 | Nested operator names such as `Sum_Prod_a-b-c` do not round-trip; they read back as an error. |
| `LegacyCodename.FillGuarded` | GPR1D.py:1383-1391 | With the corrected guard, a vector covering all parameters always rebuilds. The kernel keeps its shape, its hyperparameters are the first `nhyp` values and its constants the next `ncst`. |
| `LegacyCodename.FillAgrees` | GPR1D.py:1386-1388 | On a kernel with hyperparameters, the code as written and the guarded version agree. |
| `LegacyCodename.FillRaises` | GPR1D.py:1386-1388 | As written, any parameter vector given to a kernel without hyperparameters raises `AttributeError`. The guarded version succeeds. |
| `LegacyCodename.FillShort` | GPR1D.py:1386-1391 | A vector too short for the hyperparameters leaves the kernel unchanged. |
| `LegacyCodename.ConstantReconstruct` | GPR1D.py:1372-1392 | `Kernel_Reconstructor("C", [c])` raises `AttributeError`. The guarded version returns a constant kernel holding `c`. |
| `LegacyCodename.ReconstructGuardedSpec` | GPR1D.py:1372-1392 | For a name that builds a kernel and a vector covering its parameters, the guarded reconstructor returns that kernel's shape filled with the given values. |
| `Codename.LineBody` | src/gpr1d/core/utils.py:43 | `(.*)$` over the rest of the text: the text itself, or the text without one final line break; no other line break. |
| `Codename.BracketSplit` | src/gpr1d/core/utils.py:43 | `^(.*?)\((.*)\)$` gives the text before the first `(` and the text up to a final `)`, neither group holding a line break. A name without `(` does not match. |
| `Codename.BracketSplitOf` | src/gpr1d/core/utils.py:43 | Reading `head(body)` back gives exactly `head` and `body`. |
| `Codename.GroupLinks` | src/gpr1d/core/utils.py:45-56 | The loop over `rname`, `bflag` and `names` appends exactly the groups that `Groups` specifies. |
| `Codename.GroupsJoin` | src/gpr1d/core/utils.py:45-56 | The names, followed by the trailing run the loop drops, join with `-` back to the links. |
| `Codename.GroupsRun` | src/gpr1d/core/utils.py:50-56 | A link with `(` opens a run that absorbs the following links up to and including the next link with `)`. |
| `Codename.GroupsOfJoin` | src/gpr1d/core/utils.py:45-56 | Grouping the links of children that the grouping keeps whole gives those children back. |
| `Codename.GroupsCut` | src/gpr1d/core/utils.py:45-56 | A composite child with a `-` after its first `)` is cut there: `Prod(Sum(SE-n)-L)` groups into `Prod(Sum(SE-n)` and `L)`. |
| `Codename.LeafOf` | src/gpr1d/core/utils.py:66-90 | A bracket-free name gives either a primitive, and then only on an exact match with its codename, or a Gibbs kernel. |
| `Codename.PrimCodeLeaf` | src/gpr1d/core/utils.py:67-82 | Each of the eight codenames gives its own primitive. |
| `Codename.GibbsLeaf` | src/gpr1d/core/utils.py:83-90 | `GwC` and `GwIG` give a Gibbs kernel with the Constant and Inverse-Gaussian warping functions, and a bare `Gw` gives one without a warping function. |
| `Codename.ParseAll` | src/gpr1d/core/utils.py:57-59 | Parsing the children gives one entry per name. |
| `Codename.ParseOperator` | src/gpr1d/core/utils.py:57-65 | An operator name whose grouped children parse gives a node holding those children, unrecognised ones as `None`. |
| `Codename.ParseSerialise` | src/gpr1d/core/utils.py:27-91 | Parsing the codename of a parsable tree gives the tree back. |
| `Codename.TwoChildren` | src/gpr1d/core/utils.py:45-65 | Two single-line names that the grouping keeps whole, joined by `-` inside an operator, parse as that operator's two children. |
| `Codename.NoiseAppended` | src/gpr1d/core/utils.py:27-91 | Adding a noise term, `Sum(name-n)`, to a parsable kernel's codename parses as that sum. |
| `Codename.ParseTotal` | src/gpr1d/core/utils.py:27-91 | On a single-line name the parser never raises. |
| `Codename.ParseAllTotal` | src/gpr1d/core/utils.py:57-59 | Parsing a list of single-line children never raises. |
| `Codename.GibbsLineBreak` | src/gpr1d/core/utils.py:83-84 | When a line break follows `Gw` and is not the last character, `re.search(r'^Gw(.*)$')` finds nothing and `.group(1)` raises `AttributeError`. |
| `Codename.UnknownOperator` | src/gpr1d/core/utils.py:60-65 | A text before the bracket other than exactly `Sum`, `Prod` or `Sym` gives no kernel. |
| `Codename.Restore` | src/gpr1d/core/utils.py:118-126 | Hyperparameters are stored exactly when the vector holds at least `nhyp` values, and are its first `nhyp`. Constants are stored exactly when `ncst > 0` and the vector holds both, and are the following `ncst` values. |
| `Codename.KernelReconstructor` | src/gpr1d/core/utils.py:112-127 | Succeeds exactly when parsing succeeds and returns the parsed kernel. A name that gives no kernel stores no values. |
| `Codename.ReconstructSaved` | src/gpr1d/core/utils.py:94-127 | Saving a kernel as its codename and its hyperparameters followed by its constants, then reconstructing it, gives the kernel back with the same values. |
| `Conditioning.FirstNear` | GPR1D.py:1932-1933 | The first bin, in creation order, whose centre lies within `cn` of the point. No earlier bin is that near. |
| `Conditioning.Merge` | GPR1D.py:1934-1938 | Merging a point into a bin adds exactly one to its count. |
| `Conditioning.Absorb` | GPR1D.py:1931-1945 | A point is merged into the first near bin, or else opens a new bin at the end. Every other bin is unchanged. |
| `Conditioning.Binned` | GPR1D.py:1929-1945 | Binning the first `k` points gives at most `k` bins, each with a non-negative count. |
| `Conditioning.AbsorbTotal` | GPR1D.py:1938-1941 | Absorbing a point adds exactly one to the total count. |
| `Conditioning.CountsTotal` | GPR1D.py:1929-1945 | The counts add up to the number of in-bound points. |
| `Conditioning.BinnedGrows` | GPR1D.py:1940-1945 | Bins are never removed. |
| `Conditioning.MeanTimes` | GPR1D.py:1935-1937 | The running mean times the new count is the old sum plus the new value. |
| `Conditioning.BinMeans` | GPR1D.py:1929-1945 | Each bin's count is the number of points merged into it. Its x and y centres times its count are the sums of those points' values. |
| `Conditioning.CondenseLoop` | GPR1D.py:1924-1945 | The nested loop fills the five arrays with exactly the bins of `Binned`, column by column. |
| `Conditioning.CondenseStep` | GPR1D.py:1930-1945 | Handling point `ii` extends the arrays holding the bins of the first `ii` points to the bins of the first `ii + 1`. |
| `Conditioning.MaxAbs` | GPR1D.py:1918-1919 | The largest magnitude bounds every entry and is attained. |
| `Conditioning.Scale` | GPR1D.py:1918-1919 | The scale is at least 1, and no entry larger than 1000 in magnitude exceeds it. |
| `Conditioning.Broadcast` | GPR1D.py:1914-1915 | One error per point: the given errors when there is one per point, and otherwise the first one repeated. |
| `Conditioning.ConditionData` | GPR1D.py:1908-1950 | `__condition_data` returns exactly `ConditionSpec`: the errors broadcast, the data scaled, the points binned and the bins scaled back. |
| `Conditioning.ConditionedShape` | GPR1D.py:1908-1950 | On success the five outputs have one length, every count is at least one, and the counts add up to the number of points whose scaled y lies within the bounds. |
| `Search.Gradient` | GPR1D.py:1886-1895 | Entry `i` is the central difference `(lml(theta + dlh/2 e_i) - lml(theta - dlh/2 e_i)) / dlh`. |
| `Search.Advance` | GPR1D.py:1896 | The step is `theta + slh * g`, entry by entry. |
| `Search.Climb` | GPR1D.py:1852-1902 | Every step keeps the number of hyperparameters. |
| `Search.GradAscent` | GPR1D.py:1842-1905 | The while loop returns the hyperparameters and LML that `Ascend` specifies. |
| `Search.CentralGradient` | GPR1D.py:1886-1895 | The inner loop leaves in the gradient buffer, for every coordinate, the central difference of the LML with step `dlh`: the vector `Gradient`. |
| `Search.ClimbStops` | GPR1D.py:1852 | The search makes at most 500 steps, and stops before that limit only once the change in LML is at most `eps`. |
| `Search.EarlyReturn` | GPR1D.py:1847-1852 | When the starting LML is within `eps` of 0, no step is made, and the hyperparameters are returned unchanged with LML 0. |
| `Search.ClimbConsistent` | GPR1D.py:1896-1901 | After a step, the LML returned is that of the hyperparameters returned. |
| `Search.SlopeOfLinear` | GPR1D.py:1888-1895 | On an affine LML `c + a . theta`, the central difference at coordinate `i` is exactly `a[i]`. |
| `Search.RandomStart` | GPR1D.py:2236 | One start per bounds row. |
| `Search.RandomStartInBounds` | GPR1D.py:2236 | For a draw in `[0, 1)`, the start `abs(hi - lo) * u + min(lo, hi)` lies between the row's bounds, and below the upper one when they differ. |
| `Search.Best` | GPR1D.py:2245-2247 | The first trial attaining the largest LML among the trials that succeeded, or none when all failed. |
| `Search.Restarts` | GPR1D.py:2235-2244 | One trial is recorded per random draw. |
| `Search.RunRestarts` | GPR1D.py:2223-2250 | The trial loop over `kkvec` and `lmlvec` returns exactly what `SelectRestart` specifies. |
| `Search.RestartsPaired` | GPR1D.py:2238-2244 | Every trial records a kernel exactly when it records an LML. |
| `Search.SelectRestartSpec` | GPR1D.py:2223-2250 | With every start settable there are `nr + 1` trials. The search fails with `ValueError` exactly when all of them failed, and otherwise picks the first trial with the largest LML. |
| `Engine.BoundsTableSpec` | GPR1D.py:1447-1457 | A table is stored exactly when every entry is positive and finite and the array is 2 x nh, or nh x 2 with other than two rows. It then has one row per hyperparameter. |
| `Engine.BoundsOrientation` | GPR1D.py:1451-1454 | For a hyperparameter count other than 2, an nh x 2 array gives the same table as its 2 x nh transpose. |
| `Engine.Trunc` | GPR1D.py:1568 | `int()` truncates toward zero. |
| `Engine.Restarts` | GPR1D.py:1567-1568 | The restart count is positive exactly when the argument is at least 1, and it is then the argument's integer part. |
| `Engine.Holes` | GPR1D.py:1492-1496 | Each list item is kept, and a `None` item becomes NaN. |
| `Engine.PositiveOrSpec` | GPR1D.py:1583-1586 | A setting keeps its value unless given a positive number, so it stays positive. |
| `Engine.PositiveOrNoneSpec` | GPR1D.py:1577-1582 | An optional threshold is kept when omitted, set by a positive number, and cleared by any other number or a string, so it stays `None` or positive. |
| `Engine.DataUpdateSpec` | GPR1D.py:1467-1518 | A data column is replaced by any non-empty sequence, cleared by a string where that is allowed, and kept otherwise. |
| `Engine.MatrixSum` | GPR1D.py:1609-1610 | The sum of two square matrices of one size, entry by entry. |
| `Engine.RootDiagonal` | GPR1D.py:1622 | `np.sqrt(np.diag(m))`: the root of each diagonal entry. |
| `Engine.WithNoise` | GPR1D.py:1608-1611 | The noise matrix is added only when it is present and asked for. Otherwise the covariance is returned as stored. |
| `Engine.StdOf` | GPR1D.py:1619-1623 | The rooted diagonal when a covariance is present, `None` otherwise. |
| `Engine.CopyOutcome` | GPR1D.py:1443-1444 | A copy fails only with `ValueError`, and a successful copy is well shaped. |
| `Engine.Details` | GPR1D.py:1695-1700 | Without a kernel, `(None, None)`. Otherwise the name, and the hyperparameters followed by the constants. |
| `Engine.Gpr.constructor` | GPR1D.py:1400-1435 | The object starts with nothing set, default search settings (`lp` 1, `slh` 0.005, `dlh` 0.01, `enr` 5), no results and the flag down, and with every invariant holding. |
| `Engine.Gpr.SetKernel` | GPR1D.py:1438-1459 | A kernel argument is copied in as both kernel and input kernel. A failing copy raises and changes nothing. Given bounds replace the table whenever a kernel is held. A positive `regpar` replaces `lp`. The settings invariant is kept. |
| `Engine.Gpr.SetRawData` | GPR1D.py:1462-1518 | Each column is updated by its own rule. New x-values, and new or cleared y-errors, lower the error-fit flag; new y-values do not. |
| `Engine.Gpr.SetConditioner` | GPR1D.py:1521-1539 | `cn` is set by a positive number and cleared by any other number or a string. The bounds are set by any number and cleared by a string. An omitted argument keeps its setting, and the settings invariant is kept. |
| `Engine.Gpr.SetErrorKernelBounds` | GPR1D.py:1547-1563 | Copies an error kernel in and replaces the error bounds table when bounds are given. Either change lowers the flag, and a failing copy changes nothing. |
| `Engine.Gpr.SetErrorSearch` | GPR1D.py:1564-1569 | A positive `regpar` sets `elp` and lowers the flag. A number sets `enr` to its non-negative integer part. The search flag is replaced. |
| `Engine.Gpr.SetErrorKernel` | GPR1D.py:1542-1569 | `set_error_kernel` as a whole, keeping `elp` `None` or positive and `enr >= 0`. |
| `Engine.Gpr.SetSearchParameters` | GPR1D.py:1572-1586 | `eps` is set by a positive number and cleared by any other number or a string. The gain and step change only to positive values. The settings invariant is kept. |
| `Engine.Gpr.GpVariance` | GPR1D.py:1603-1611 | The stored covariance, with the noise matrix added when asked for and present. |
| `Engine.Gpr.GpStd` | GPR1D.py:1614-1623 | Present exactly when a covariance is stored, with one entry per point. |
| `Engine.Gpr.GpDrvVariance` | GPR1D.py:1633-1641 | The same as `GpVariance`, for the derivative. |
| `Engine.Gpr.GpDrvStd` | GPR1D.py:1644-1653 | The same as `GpStd`, for the derivative. |
| `Engine.DrvStdWithNoise` | GPR1D.py:1633-1653 | With the derivative noise matrix present and asked for, each derivative standard deviation is the root of the summed diagonal entries. |
| `Engine.DrvStdWithoutNoise` | GPR1D.py:1633-1653 | Without the noise flag, each derivative standard deviation is the root of the diagonal of `dvarF` alone. |
| `Engine.Gpr.GpResults` | GPR1D.py:1656-1665 | A four-tuple: the mean, its spread, the derivative mean and its spread. A spread is present exactly when its variance is stored. It is the covariance (`Cov`) when `rtn_cov` holds and the standard deviation (`Std`) otherwise. |
| `Engine.Gpr.GpKernelDetails` | GPR1D.py:1690-1700 | `Details` of the fitted kernel. |
| `Engine.Gpr.GpErrorKernelDetails` | GPR1D.py:1710-1720 | `Details` of the error kernel. |
| `Engine.Gpr.ChooseStart` | GPR1D.py:2203-2252 | A prediction grid that is not a non-empty sequence raises `ValueError`. With a kernel, a table and a positive restart count, the result is the restart selection. Otherwise the configured kernel is fitted directly. Once the grid is accepted, the stored noise-corrected errors `_nye` are cleared (GPR1D.py:2218). A refused grid leaves them unchanged. |
| `Engine.UnfittedAccessors` | GPR1D.py:1589-1665 | Before any fit `get_gp_variance` and `get_gp_std` return `None`, and so does every entry of `get_gp_results`. |
| `Engine.StdWithNoise` | GPR1D.py:1603-1623 | With the noise matrix present and asked for, the standard deviation is the root of the summed diagonals. |
| `Engine.StdWithoutNoise` | GPR1D.py:1603-1623 | Without the noise flag, the noise matrix plays no part. |
| `Strings.JoinSplit` | src/gpr1d/core/utils.py:45 | Joining the pieces of `str.split` with the separator gives the string back. |
| `Strings.Split` | src/gpr1d/core/utils.py:45 | `str.split` on one character gives at least one piece, and no piece contains the separator or is longer than the string. |
| `Strings.SplitJoin` | GPR1D.py:1357 | Splitting a join of separator-free pieces gives the pieces back. |
| `Strings.StartsWithSpec` | GPR1D.py:1328 | `re.match` with a plain pattern holds exactly when the name begins with the pattern. |
| `Strings.ContainsSpec` | GPR1D.py:1361 | `re.search` with a plain pattern holds exactly when the pattern occurs somewhere in the text. |
| `Wrappers.MapReal` | GPR1D.py:71 | Elementwise application of an oracle such as `log10` or `10**x`, keeping the length. |

## Left out

- Floating point: all values are exact reals. `10**x`, `log10` and `sqrt` are parameters with no properties assumed. NaN and infinity appear only as `Float` tags. They are used by the finiteness checks of the bounds table, and by `Engine.Holes`, where a `None` list item becomes NaN.
- The SE, RQ, Matérn, NN and Gibbs kernel formulas and `__gauss_ls`: their values come from an oracle. Only their derivative-order checks (`NotImplementedError`, and Matérn's `ValueError` when the order exceeds `nu`) are modelled.
- `__gp_base_alg`, `__gp_brute_deriv1`, `basic_fit` and `brute_derivative`: the Cholesky solves and the LML are an oracle (`lml` in `Search`, `fit` in `Search.Restarts`). The argument coercion in `basic_fit` is not modelled.
- Conditioning.ConditionSpec: works on exact reals, so the filter `good` of `__condition_data` (GPR1D.py:1913-1917), which drops NaN and infinite points, is not modelled. Its inputs are taken to have had such points removed already.
- The rest of `GPRFit` after the restart selection: the refit, the heteroscedastic error-kernel block and the stores of the results into the object. `Engine.Gpr.ChooseStart` stops at the kernel chosen.
- `make_NIGP_errors`, `sample_GP`, `MCMC_posterior_sampling` and `get_error_function`: they are numeric and random, and chain several full fits.
- `set_bounds` and `get_bounds`: `set_bounds` fails on a misspelled attribute (GPR1D.py:163), and the restart path reads the table on the object instead.
- The simple getters (`get_gp_x`, `get_gp_mean`, `get_gp_lml`, `get_gp_kernel`, `get_gp_input_kernel`, `get_error_kernel`, `get_gp_drv_mean`) return a field, and are the fields of `Engine.Gpr`.
- Object identity: kernels are values. The aliasing of a kernel object shared between two operators, or between the object and a caller, is not captured. The setters return a new kernel instead of updating one in place.
- `TypeError` from a setter given a non-sequence is not modelled, because the parameter is always a sequence here.
- `print` calls (Symmetric_Kernel with several kernels, and the iteration-limit message of the gradient ascent) are not modelled.
- The `np.random` draws are inputs to `Search.RunRestarts` and `Engine.Gpr.ChooseStart`.
- Ragged or object arrays for the bounds table are excluded by `Engine.Rectangular`. A data list holding `None` in `xdata`, `ydata`, `xerr` or `yerr` is excluded by `Engine.Plain`, because numpy then builds an object array.
- Line breaks in names are modelled only as far as the matches above need them. `.` does not cross a line break, and `$` also matches before a final line break.
- The heteroscedastic search branch of the gradient ascent (`is_hderiv_implemented`) is never taken, because the flag is forced off in the base constructor (GPR1D.py:55). It is not modelled.
- `KernelReconstructor` in `src/gpr1d/core/utils.py` calls kernel classes of a newer kernel module, which is not part of this model. Its kernels are parse trees (`Codename.Tree`), and their parameter counts are the parameter `sizes`.
- The GUI, the demo scripts and the packaging are not modelled.
- `Evaluation.EvalPrim`: the polynomial kernel's derivative with respect to `b` is modelled as written (`b`), although the derivative of `b^2` is `2b` (GPR1D.py:610-611).

## Findings

| source | as written | input that shows it | evidently intended | confidence | as-written member | corrected member |
|---|---|---|---|---|---|---|
| GPR1D.py:377-385 | For two factors at order ±2, `dermat` has rows `(2,0), (0,2), (2,0), (0,2)`: the pure second derivatives twice each, and no cross terms | `Product(Linear(1), Poly(1, 1))` at `x1 = x2 = 0`, `der = 2` gives 2 | The product rule: rows `(2,0), (-1,1), (1,-1), (0,2)`, giving 1 | not executed | `Evaluation.LinearPolySecondDiffers` | `Dermat.LeibnizSecondOrder` |
| GPR1D.py:381-385 | For three factors at first order, `dermat` has four rows, with `(0,1,0)` twice | `Product(Linear(1), Linear(1), Linear(1))` at `x1 = x2 = 1`, `der = 1` gives 4 | One row per factor, giving 3 | not executed | `Evaluation.LinearTripleFirstDiffers` | `Dermat.LeibnizFirstOrder` |
| GPR1D.py:1386-1388 | `Kernel_Reconstructor` calls `set_hyperparameters` even on a kernel with no hyperparameters, which raises `AttributeError` | `Kernel_Reconstructor("C", [2.0])` raises | Skip the hyperparameter setter when `nhyp == 0`, returning a constant kernel holding 2.0 | not executed | `LegacyCodename.FillRaises` | `LegacyCodename.ReconstructGuardedSpec` |
