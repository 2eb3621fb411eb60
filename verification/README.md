# Totally-corrective boosting toolkit: a Dafny model of its core

This project models a C++ toolkit for totally-corrective boosting and its three
Python helper scripts, and proves properties of that model.

The toolkit has several parts:

- **Boosters.** ERLPBoost (also called KlBoost), its binary variant, Corrective
  and LPBoost.
- **Weak-learner oracles.** Raw features, an SVM kernel oracle and decision stumps.
- **Sparse and dense vector algebra.**
- **The text formats** in which learners, ensembles and sparse vectors are dumped
  and reloaded.
- **The LIBSVM file readers.**
- **The factories** that turn a configuration into an oracle, an optimizer and a
  booster.
- **Loss evaluation and the iteration timer.**

The scripts do three jobs:

- convert the IDA benchmark files to LIBSVM format;
- print experiment configuration files;
- fetch, concatenate and split the data sets 60/20/20.

How the model treats numbers and outside code:

- Numbers are exact `real`s, and `size_t` indices are `nat`s.
- Three kinds of outside code become parameters of the model: the exp/log
  arithmetic of the boosters, the numeric solvers (L-BFGS-B, TAO, CLP and the
  projected-gradient iteration), and the printer's rounding.
- Each of these parameters returns a value the model then uses.
- The file system, clock and network are values passed in.

Modules, one per component of the source:

- `Results` (results.dfy): `Option`/`Result` and the error kinds the source raises or aborts with.
- `Seqs` (seqs.dfy): exact sums over sequences of reals.
- `Text` (text.dfy): whitespace tokenising, decimal numerals, truncation toward zero.
- `Streams` (streams.dfy): an `istream` as a sequence of items with its eof/fail flags; the `parse.cpp` helpers.
- `SparseText` (sparse_text.dfy): `operator<<`/`operator>>` of a sparse vector.
- `Vectors` (vectors.dfy): `SparseVector`/`DenseVector`, the dot products and `hadamard`, with the merge loops both as written and corrected.
- `LinAlg` (linalg.dfy): matrix-vector and transpose products, `axpy`, `scale`, `sum`, `normalize`, `argmax`/`argmin`/`abs_argmax`, `max`/`min`/`abs_max`.
- `WeakLearners` (learners.dfy): linear and decision-stump learners, their predictions and equality, weighted learners.
- `LearnerText` (learner_text.dfy): dumping and loading learners.
- `Ensembles` (ensemble.dfy): the weighted ensemble, its weights, predictions and text format.
- `Oracles` (oracles.dfy): margins, labelled predictions and the edge-maximising selection the oracles share.
- `RawDataOracle` (raw_data_oracle.dfy), `SvmOracle` (svm.dfy), `StumpOracle` (stump_oracle.dfy): the three oracles.
- `Loss` (loss.dfy): the 0/1 loss with its tie-breaking.
- `Timing` (timer.dfy): the timer's start/stop state machine.
- `Optimizers` (optimizers.dfy): the shared optimizer state and `push_back`.
- `ProjectedGradient` (pg.dfy): the projection, step-size and backtracking rules of the projected-gradient optimizer.
- `Boosting` (booster.dfy): the boosting loop, the duality-gap bookkeeping and the default eta.
- `Erlp` (erlp.dfy), `Corrective` (corrective.dfy), `LpBoosting` (lpboost.dfy): the three boosters' updates.
- `Factories` (factories.dfy): configuration lookups and the oracle, optimizer and booster factories.
- `LibSvm` (libsvm.dfy): the plain, transposing and fast transposing LIBSVM readers.
- `IdaConverter` (ida.dfy), `ConfigPrinter` (configs.dfy), `DataSets` (datasets.dfy): the three scripts.

## Where the code and its own intentions differ

In each case the program states an intention that its code does not carry out.
The model follows the code.

- The IDA converter raises an exception when the label file and the data file
  differ in length (tools/ida_benchmark_to_libsvm_file_format.py:39). The check in
  front of it compares with `None` (line 38), which `readline()` never returns, so
  the exception is never raised (see Findings).
- The config printer writes the tolerance `eps = 0.01` when `eps` is missing
  (tools/print_configs.py:84). Every caller has already indexed `eps` for the
  output file's name, so a missing `eps` raises `KeyError` first and the 0.01
  line is never written (`ConfigPrinter.EpsDefaultUnreachable`).
- The config printer's comment lists `tao`, `hz`, `pg` and `cd` as the possible
  optimizer types (tools/print_configs.py:121). The toolkit's factory also takes
  `lbfgsb`, its default (src/optimizers/optimizers_factory.cpp:30). The model
  follows a build without `USE_TAO` and rejects `tao` as an invalid argument
  (src/optimizers/optimizers_factory.cpp:36-45).

## Model

| member | source | states |
|---|---|---|
| Vectors.ScatterAdd | src/math/vector_operations.cpp:340-353 | adding stored entries one by one into a dense buffer adds, at every coordinate j, the total value stored with index j |
| Vectors.ToDense | src/math/sparse_vector.hpp:11-27 | the dense vector a sparse one stands for has its dimension and, at j, the sum of the values stored with index j |
| Vectors.DotSDIsDenseDot | src/math/vector_operations.cpp:190-206 | Σ_k b[index[k]]·val[k] equals the dense dot product of the vector the entries stand for with b |
| Vectors.MergeDotIsLookup | src/math/vector_operations.cpp:168-188 | for strictly increasing index lists the corrected merge equals Σ over a's entries of val times b's value at that index |
| Vectors.DotSSIsDenseDot | src/math/vector_operations.cpp:168-188 | for increasing, in-range operands the corrected sparse dot is the dense dot product of the two vectors they stand for |
| Vectors.DotDDAddAt | src/math/vector_operations.cpp:226-235 | adding x at coordinate i changes the dense dot product with b by b[i]·x |
| Vectors.MergeProductIndices | src/math/vector_operations.cpp:242-285 | for increasing operands the corrected `hadamard` stores exactly the common indices, in increasing order |
| Vectors.MergeProductValues | src/math/vector_operations.cpp:242-285 | the corrected `hadamard` stands, at every coordinate, for the product of the operands' values there |
| Vectors.HadamardIsPointwise | src/math/vector_operations.cpp:242-285 | the corrected `hadamard` of increasing in-range operands keeps a.dim, is increasing and in range, and is the coordinatewise product |
| Vectors.SkipStep | src/math/vector_operations.cpp:176-178 | the two skipping `if`s move each cursor forward by at most one and fail exactly when a cursor reaches the end before the next read; standing still means equal heads |
| Vectors.DotAsWrittenReadsPastEnd | src/math/vector_operations.cpp:176-180 | the loop as written reads `a.index[1]` of a one-entry vector for the inputs (1) and (2) |
| Vectors.DotAsWrittenAgrees | src/math/vector_operations.cpp:168-188 | whenever the loop as written stays in range, it returns the corrected merge |
| Vectors.HadamardAsWrittenReadsPastEnd | src/math/vector_operations.cpp:255-258 | the `hadamard` loop as written reads `b.index[1]` of a one-entry vector for the inputs (3) and (0) |
| Vectors.HadamardAsWrittenAgrees | src/math/vector_operations.cpp:242-285 | whenever the `hadamard` loop as written stays in range, it collects the corrected product |
| LinAlg.DotIsDenseDot | src/math/vector_operations.cpp:168-235 | every `dot` overload is the dense dot product of what its operands stand for |
| LinAlg.MatVecSparse | src/math/vector_operations.cpp:16-43 | the sparse matrix-vector result has nnz = dim = number of rows, stores row i's product under index i, and is increasing and in range |
| LinAlg.MatVecSparseIsDense | src/math/vector_operations.cpp:16-88 | the sparse matrix-vector result stands for the dense one |
| LinAlg.MatVecIsDenseProduct | src/math/vector_operations.cpp:66-88 | entry i of the dense matrix-vector result is the dense dot product of row i with the vector |
| LinAlg.AxpyRow | src/math/vector_operations.cpp:316-353 | one row's `axpy` into the buffer adds a times the row's coordinate at every j |
| LinAlg.TransposeDotColumns | src/math/vector_operations.cpp:108-127 | coordinate j of `transpose_dot` is column j of the matrix dotted with the vector, i.e. Σ_k vec[k]·mat[k][j] |
| LinAlg.ScatterRowsValues | src/math/vector_operations.cpp:153-163 | the sparse `transpose_dot` buffer gains at j the stored entries of vec dotted with column j |
| LinAlg.TransposeBuffer | src/math/vector_operations.cpp:141-166 | the sparse `transpose_dot` values have dimension mat[0].dim and are Σ_i val_i·mat[index_i][j] |
| LinAlg.TransposeDotSparseAsWritten | src/math/vector_operations.cpp:151-163 | the sparse `transpose_dot` as written stores every value under index 0 |
| LinAlg.TransposeDotSparseAsWrittenMisplaces | src/math/vector_operations.cpp:151-163 | for the row (0, 1) and the vector (1) the as-written result stands for (1, 0) instead of (0, 1) |
| LinAlg.TransposeDotSparse | src/math/vector_operations.cpp:141-166 | with index k at position k, the result is increasing, in range, of dimension mat[0].dim |
| LinAlg.TransposeDotSparseIsDense | src/math/vector_operations.cpp:108-166 | the corrected sparse `transpose_dot` stands for the dense `transpose_dot` of the same rows and vector |
| LinAlg.ScaleSparseIsDenseScale | src/math/vector_operations.cpp:288-305 | scaling the stored values scales the vector they stand for |
| LinAlg.AxpySD | src/math/vector_operations.cpp:340-353 | `axpy(a, sparse x, dense y)` is a·x + y at every coordinate |
| LinAlg.AxpyDS | src/math/vector_operations.cpp:325-338 | `axpy(a, dense x, sparse y)` is a·x + y at every coordinate |
| LinAlg.MixedAxpyIsDense | src/math/vector_operations.cpp:316-353 | both mixed `axpy` forms equal the dense `axpy` of the vectors their operands stand for |
| LinAlg.SumSparseIsDenseSum | src/math/vector_operations.cpp:357-370 | the sum of the stored values is the sum of the dense vector they stand for |
| LinAlg.SumSparseAsWrittenDefined | src/math/vector_operations.cpp:357-362 | the as-written `sum(SparseVector)` stays in bounds iff every stored index is below nnz |
| LinAlg.SumSparseAsWrittenAgrees | src/math/vector_operations.cpp:357-362 | for increasing indices an in-bounds as-written sum equals Σ val, since in bounds index[i] = i |
| LinAlg.SumSparseAsWrittenReadsPastEnd | src/math/vector_operations.cpp:357-362 | one value stored at index 3 of a 5-vector makes the as-written sum read `val[3]` of a one-element array |
| LinAlg.NormalizeDense | src/math/vector_operations.cpp:373-380 | `normalize` divides every entry by the total, so the result sums to 1 |
| LinAlg.NormalizeSparse | src/math/vector_operations.cpp:383-390 | the sparse `normalize` keeps dim and indices, divides every stored value by their total, and the values then sum to 1 |
| LinAlg.ScanMax | src/math/vector_operations.cpp:446-474 | a strict-improvement scan from init ends at the larger of init and every key, attained unless it is init |
| LinAlg.ScanArgMax | src/math/vector_operations.cpp:401-444 | the scan records no position iff no key beats init; otherwise the first position of the maximum |
| LinAlg.ArgMax | src/math/vector_operations.cpp:416-429 | `argmax` is the first index of the largest entry, and `size_t(-1)` iff no entry exceeds -DBL_MAX (every empty vector) |
| LinAlg.ArgMin | src/math/vector_operations.cpp:401-414 | `argmin` is the first index of the smallest entry, and `size_t(-1)` iff no entry is below DBL_MAX |
| LinAlg.AbsArgMax | src/math/vector_operations.cpp:431-444 | `abs_argmax` is the first index of the largest magnitude, and `size_t(-1)` iff the vector is empty |
| LinAlg.Max | src/math/vector_operations.cpp:446-454 | `max` bounds every entry from above, is at least -DBL_MAX, and is an entry unless it is -DBL_MAX |
| LinAlg.Min | src/math/vector_operations.cpp:466-474 | `min` bounds every entry from below, is at most DBL_MAX, and is an entry unless it is DBL_MAX |
| LinAlg.AbsMax | src/math/vector_operations.cpp:456-464 | `abs_max` is at least 0, bounds every magnitude, and is a magnitude unless it is 0 |
| Text.WordsOfJoin | tools/ida_benchmark_to_libsvm_file_format.py:42-44 | splitting a list of words joined by single blanks gives back exactly that list, so the converted line's fields are recoverable |
| Text.BlankIffNoWords | src/LibSvmReader.cpp:15-22 | a line is blank in the sense of `is_blank` exactly when it holds no word |
| Text.ReadShowNat | src/math/sparse_vector.cpp:13-16 | a natural number printed in decimal is read back as the same number |
| Text.ShowSigned | tools/ida_benchmark_to_libsvm_file_format.py:41 | `%+i` always writes a sign, `-` exactly for negative values, followed by the magnitude's digits |
| Text.Truncate | tools/process_data.py:52-54 | `int()` truncates toward zero: for non-negative x the result is the floor, for negative x the ceiling |
| Streams.ReadWordFront | src/parse.cpp:29 | a word with white space in front and white space or nothing after it is extracted whole, and the end of the text sets `eof` |
| Streams.ReadIntegerFront | src/parse.cpp:42 | a natural number written in decimal and followed by a non-digit is extracted as that number |
| Streams.SizeT | src/math/sparse_vector.cpp:71 | converting a signed value to `size_t` keeps it when it is in range and otherwise reduces it modulo 2^64 |
| Streams.ReadInt | src/parse.cpp:42 | extracting an `int` fails exactly when no integer is there or it lies outside the 32-bit range, and a success consumes input |
| Streams.ReadBool | src/weak_learners/DecisionStumpWeakLearner.cpp:146 | extracting a `bool` succeeds only on the integers 0 and 1, which become false and true |
| Streams.Peek | src/math/sparse_vector.cpp:46 | `peek` gives the next item without consuming it exactly when the stream is good and not at its end |
| Streams.ThrowIfFail | src/parse.cpp:8-14 | succeeds exactly when `fail` is clear; otherwise the message cannot leave a `throw()` function and the program terminates |
| Streams.ThrowIfEof | src/parse.cpp:16-22 | succeeds exactly when `eof` is clear; otherwise the program terminates |
| Streams.ExpectKeyword | src/parse.cpp:24-35 | succeeds exactly when the next word is the keyword; a different word s throws "Expected keyword '<kw>' but got '<s>'"; every other failure terminates |
| Streams.ExpectInt | src/parse.cpp:37-45 | returns the next integer and the stream after it exactly when one can be extracted; otherwise the program terminates |
| Streams.ExpectWord | src/parse.cpp:47-55 | returns the next word and the stream after it exactly when one can be extracted; otherwise the program terminates |
| Streams.ExpectAtEndTerminates | src/parse.cpp:27-28 | at the end of the text every `expect_*` call terminates the program, since the `eof` check comes first |
| Streams.WordTextOfChars | src/parse.cpp:33 | a word made of characters is quoted in the mismatch message as exactly those characters |
| Streams.ExpectKeywordFront | src/parse.cpp:24-35 | a keyword written with white space around it is accepted and consumed |
| Streams.ChompUntil | src/parse.cpp:57-68 | an empty keyword returns at once; at `eof` it throws; on a failed stream that is not at its end the loop never ends; a success consumes input |
| Streams.ChompSkipsTo | src/parse.cpp:57-68 | the words in front of the keyword are discarded together with the keyword, and reading resumes after it |
| SparseText.ReadShowSparse | src/math/sparse_vector.cpp:11-81 | for at least one entry, reading what `operator<<` wrote gives back the dimension, the indices in order and the values as printed, leaving the newline unread |
| SparseText.EmptyDoesNotRoundTrip | src/math/sparse_vector.cpp:12-52 | an empty vector does not survive a write and read: the writer leaves a blank after `)`, so `peek` sees the blank rather than the newline, and the entry loop's `>>` skips the newline and reads on |
| SparseText.ReadSparseAfterBlanks | src/math/sparse_vector.cpp:36 | white space in front of a vector's text does not change what is read |
| SparseText.ReadPairs | src/math/sparse_vector.cpp:46-64 | the entry loop keeps every entry read so far and stops with them at a newline; a mismatched bracket throws |
| SparseText.SparseEqIsEquality | src/math/sparse_vector.cpp:84-90 | `operator==` holds exactly when the two vectors are equal: dimension, entry count, indices and values |
| WeakLearners.TypeName | src/weak_learners/LinearWeakLearner.cpp:74-76 | `get_type` is "RAWDATA" exactly for the linear learner and "DSTUMP" exactly for the stump (src/weak_learners/DecisionStumpWeakLearner.cpp:55-58) |
| WeakLearners.Sign | src/weak_learners/DecisionStumpWeakLearner.cpp:86-93 | a stump answers +1 or -1, and +1 exactly on its side of the threshold: at or above it when `direction` holds, at or below it otherwise |
| WeakLearners.PredictDense | src/weak_learners/DecisionStumpWeakLearner.cpp:62-77 | the linear learner predicts the dot product of wt with x; the stump thresholds that same dot product |
| WeakLearners.PredictSparseIsDense | src/weak_learners/DecisionStumpWeakLearner.cpp:80-96 | for ordered, in-range operands the sparse-example prediction equals the dense one on the vector the example stands for |
| WeakLearners.AssignEntriesValues | src/weak_learners/DecisionStumpWeakLearner.cpp:102-107 | writing a row with increasing indices into a buffer leaves the row's value at each stored index and the buffer's value elsewhere |
| WeakLearners.PredictMatrix | src/weak_learners/LinearWeakLearner.cpp:51-72 | the linear learner's answer has Data[0].dim entries and the stump's has the dimension of row `index`; a stump's every answer is +1 or -1 |
| WeakLearners.LinearPredictMatrix | src/weak_learners/LinearWeakLearner.cpp:56-70 | both branches (the one-weight shortcut and the transpose product) give, at example j, the sum over k of wt_k times Data[k] at j |
| WeakLearners.LinearPredictMatrixIsColumnwise | src/weak_learners/LinearWeakLearner.cpp:43-72 | example j of the whole-matrix prediction is the single-example prediction on column j |
| WeakLearners.StumpPredictMatrix | src/weak_learners/DecisionStumpWeakLearner.cpp:99-123 | the whole-matrix stump prediction thresholds row `index` at every example, an absent entry counting as 0 |
| WeakLearners.StumpPredictMatrixIsColumnwise | src/weak_learners/DecisionStumpWeakLearner.cpp:99-123 | with a single unit weight at `index`, example i of the whole-matrix prediction equals the single-example prediction on column i |
| WeakLearners.EqualSameKind | src/weak_learners/DecisionStumpWeakLearner.cpp:158-166 | between learners of one kind `equal` is reflexive and symmetric and compares exactly wt, and for stumps also threshold, direction and index |
| WeakLearners.EqualAcrossKinds | src/weak_learners/LinearWeakLearner.cpp:99-103 | the linear learner's `dynamic_cast` accepts a stump, so it equals any stump with the same wt, while no stump equals a linear learner |
| WeakLearners.EqualPredictAlike | src/weak_learners/DecisionStumpWeakLearner.cpp:182-185 | learners of one kind that compare equal make the same prediction on every example, whatever their edges |
| WeakLearners.CopyStumpAsWritten | src/weak_learners/DecisionStumpWeakLearner.cpp:38-45 | the copy constructor copies wt, threshold and direction but not `index`, so the copy equals the original exactly when the uninitialised index happens to match |
| WeakLearners.CopyStumpAsWrittenPredictsOtherwise | src/weak_learners/DecisionStumpWeakLearner.cpp:38-45 | a concrete stump and data matrix on which the as-written copy predicts differently from the original |
| WeakLearners.CopyStumpIsFaithful | src/weak_learners/DecisionStumpWeakLearner.cpp:38-45 | the copy with `index` copied is equal to the original in both directions and predicts exactly as it does |
| WeakLearners.WeightedPredictMatrix | src/weak_learners/WeightedWeakLearner.cpp:12-17 | the weighted whole-matrix prediction is the learner's prediction scaled by the weight, entry by entry |
| WeakLearners.WeightedLinearColumnwise | src/weak_learners/WeightedWeakLearner.hpp:48-58 | example j of the weighted whole-matrix prediction equals the weighted single-example prediction on column j |
| WeakLearners.EqualWeightedPredictAlike | src/weak_learners/WeightedWeakLearner.hpp:61-65 | weighted learners whose learners compare equal predict alike under the same weight, since `operator==` ignores the weight |
| WeakLearners.WeightOperations | src/weak_learners/WeightedWeakLearner.hpp:23-41 | setting, scaling and adding to the weight change the weighted prediction accordingly and never change weighted equality |
| LearnerText.ExitOnThrow | src/weak_learners/LinearWeakLearner.cpp:91-94 | a caught message becomes exit status 1; successes and uncatchable failures pass through unchanged |
| LearnerText.RealField | src/weak_learners/DecisionStumpWeakLearner.cpp:141-144 | a labelled field is read exactly when its label is there; otherwise the mismatch message is thrown or the program terminates |
| LearnerText.SizeField | src/weak_learners/DecisionStumpWeakLearner.cpp:147-148 | a labelled index is read exactly when its label is there, and the value is below 2^64 |
| LearnerText.LoadLearner | src/weak_learners/DecisionStumpWeakLearner.cpp:137-155 | loading keeps the learner's kind and its prediction vector, and every failure ends the program |
| LearnerText.ReadWeighted | src/weak_learners/WeightedWeakLearner.cpp:29-44 | reading a weighted learner keeps its learner's kind, and every failure ends the program |
| LearnerText.Reloaded | src/weak_learners/DecisionStumpWeakLearner.cpp:126-134 | a reloaded learner has the original's kind, dimension, entry count and indices, and a stump keeps its direction and index |
| LearnerText.LoadDump | src/weak_learners/DecisionStumpWeakLearner.cpp:126-155 | loading what `dump` wrote into a target of the same kind gives back the learner, every real as printed, leaving the final newline |
| LearnerText.OtherLabelThrows | src/parse.cpp:31-34 | a written label met where another label is expected throws "Expected keyword '<expected>' but got '<label>'" |
| LearnerText.LoadOtherKindExits | src/weak_learners/LinearWeakLearner.cpp:85-96 | a dump of one kind loaded as the other fails on the label (`Edge:` against `edge:`) and ends the program with status 1 |
| LearnerText.ReadOtherKindExits | src/weak_learners/WeightedWeakLearner.cpp:29-44 | a weighted learner's text read into a target of the other kind ends the program |
| LearnerText.ReadDumpWeighted | src/weak_learners/WeightedWeakLearner.cpp:20-44 | reading back a written weighted learner into a target of the same kind gives the reloaded learner and the weight as printed |
| Ensembles.Find | src/Ensemble.cpp:154-155 | `std::find` yields the first member whose learner is `equal` to the new one, and none exactly when no member's learner is |
| Ensembles.Add | src/Ensemble.cpp:151-166 | `add` answers true exactly when some member's learner equals the new one, and then grows the first such member's weight by the new weight; otherwise it appends the new member; the size grows by one exactly when it answers false |
| Ensembles.AddTwiceMerges | src/Ensemble.cpp:151-166 | adding the same weighted learner a second time merges it and leaves the size unchanged |
| Ensembles.Weights | src/Ensemble.cpp:99-109 | `get_weights` has one entry per member, member i's weight in position i |
| Ensembles.WeightsRoundTrip | src/Ensemble.cpp:111-121 | setting the weights read from an ensemble gives it back; reading the weights after `set_weights` gives the first `size` entries set; the learners never change |
| Ensembles.ScaleWeightsEffect | src/Ensemble.cpp:123-131 | `scale_weights` multiplies every weight and the weights' total by the factor and keeps the learners |
| Ensembles.WeightAtEffect | src/Ensemble.cpp:133-145 | `set_weight` and `add_weight` change member idx's weight alone, the latter moving the total by exactly the amount added; the learners stay |
| Ensembles.AddTotal | src/Ensemble.cpp:151-166 | whether `add` merges or appends, the weights' total grows by the new weight |
| Ensembles.PredictSparseIsDense | src/Ensemble.cpp:24-57 | on ordered, in-range vectors the sparse-example prediction equals the dense one |
| Ensembles.AddWeightAtPredict | src/Ensemble.cpp:140-145 | `add_weight(a, idx)` moves the prediction by member idx's learner weighted by a |
| Ensembles.AddPredict | src/Ensemble.cpp:151-166 | in an ensemble of one kind, `add` moves the prediction by the new member's weighted prediction whether it merges or appends |
| Ensembles.PredictMatrix | src/Ensemble.cpp:60-81 | the whole-matrix prediction has one entry per example of data[0] |
| Ensembles.PredictMatrixIsSum | src/Ensemble.cpp:63-69 | example i of the whole-matrix prediction is the sum of the members' weighted predictions at i |
| Ensembles.LinearPredictMatrixIsColumnwise | src/Ensemble.cpp:24-81 | for linear members, example j of the whole-matrix prediction is the single-example prediction on column j |
| Ensembles.TypeOf | src/Ensemble.cpp:199-207 | the type written is `NONE` exactly when the ensemble is empty |
| Ensembles.ReadHeaderFront | src/Ensemble.cpp:198-208 | a written header is read back as its type word and its count, stopping at the newline after the count |
| Ensembles.ReadMembers | src/Ensemble.cpp:229-256 | a successful loop extends the members read so far by exactly `count` members (none for a non-positive count); an unknown type with a positive count throws |
| Ensembles.ReadEnsemble | src/Ensemble.cpp:217-266 | every message thrown while reading ends the program with status 1; the other failures terminate or never end |
| Ensembles.ReadMembersFront | src/Ensemble.cpp:230-245 | members of the announced kind are read back one after another, each as reloaded into a fresh learner with its weight as printed |
| Ensembles.ReadMembersOtherKind | src/Ensemble.cpp:230-245 | a member of another kind than the announced one fails its first label check and ends the program |
| Ensembles.ReadShowEnsemble | src/Ensemble.cpp:194-266 | reading what `operator<<` wrote for members of one kind gives back the members in order, learners and weights as printed |
| Ensembles.ReadShowMixedExits | src/Ensemble.cpp:201 | an ensemble whose members are not all of the first member's kind cannot be read back: the program exits at the first member of another kind |
| Ensembles.UnknownTypeExits | src/Ensemble.cpp:252-255 | a type other than `DSTUMP` and `RAWDATA` with a positive count ends the program |
| Oracles.Margins | src/oracles/RawDataOracle.cpp:37-41 | `dist_labels` has one entry per example, dist_i times label_i |
| Oracles.DotWithUnit | src/oracles/RawDataOracle.cpp:71-81 | a row's dot product with the unit weight vector of a pick is its value at the picked coordinate, negated for a negated pick |
| Oracles.ValueAtLabelEntries | src/oracles/RawDataOracle.cpp:112-114 | multiplying each stored value by the label of its example multiplies what the prediction holds at example j by label j |
| Oracles.LabelledEdge | src/oracles/RawDataOracle.cpp:84-88 | the edge of the labelled prediction under dist is the hypothesis' correlation with the margins, negated for a negated pick |
| Oracles.Select | src/oracles/RawDataOracle.cpp:48-67 | a negated pick happens only when reflexive; the reported edge is minus the minimum edge for a negated pick and the maximum edge otherwise |
| Oracles.SelectIsBest | src/oracles/RawDataOracle.cpp:48-116 | for finite edges the pick names a hypothesis whose reported edge is its own, no hypothesis beats it, no negated one does when reflexive, the negated branch is taken exactly when reflexive and some negated hypothesis beats every one, and the pick is the first such |
| Oracles.MaxAttained | src/oracles/RawDataOracle.cpp:54-59 | the maximum is attained at the position the first-strict-maximum loop reports, and every earlier edge is smaller |
| Oracles.MinAttained | src/oracles/RawDataOracle.cpp:60-64 | the minimum is attained at the position the first-strict-minimum loop reports, and every earlier edge is larger |
| RawDataOracle.Edges | src/oracles/RawDataOracle.cpp:43-46 | there is one edge per hypothesis: per row when transposed, per feature otherwise |
| RawDataOracle.EdgesAreCorrelations | src/oracles/RawDataOracle.cpp:37-46 | in both layouts edge j is hypothesis j's correlation with the margins, the sum over i of dist_i times label_i times x_ij |
| RawDataOracle.RawPrediction | src/oracles/RawDataOracle.cpp:76-81 | the unlabelled prediction has in-range indices and one coordinate per example |
| RawDataOracle.FindMaximumEdge | src/oracles/RawDataOracle.cpp:31-121 | the oracle returns a linear learner whose weight vector has one entry, over one coordinate per hypothesis, and whose prediction has one coordinate per example |
| RawDataOracle.PredictionAt | src/oracles/RawDataOracle.cpp:105-114 | after labelling, the prediction at example i is label i times the picked hypothesis' value there, negated for a negated pick |
| RawDataOracle.PredictionIsLabelledHypothesis | src/oracles/RawDataOracle.cpp:67-120 | in both layouts the returned prediction stands for the picked hypothesis' labelled values, and its edge under dist is the edge the learner reports |
| RawDataOracle.MaximumEdgeIsBest | src/oracles/RawDataOracle.cpp:31-121 | the returned learner's edge is at least every hypothesis' edge and, when reflexive, at least every negated hypothesis' edge too |
| SvmOracle.Kernel | src/oracles/Svm.cpp:43 | hypothesis m's value on example i is the linear kernel, the dot product of examples i and m |
| SvmOracle.Edges | src/oracles/Svm.cpp:43-52 | there is one edge per example in both layouts |
| SvmOracle.EdgesAreKernelCorrelations | src/oracles/Svm.cpp:39-52 | in both layouts edge m is kernel column m's correlation with the margins, the sum over i of dist_i times label_i times the kernel of examples i and m |
| SvmOracle.Weight | src/oracles/Svm.cpp:77-89 | the weight vector has one coordinate per feature, with in-range increasing indices |
| SvmOracle.WeightIsExample | src/oracles/Svm.cpp:104-116 | the weight vector stands for the picked example, negated for a negated pick, in both layouts |
| SvmOracle.RawPrediction | src/oracles/Svm.cpp:107-116 | with the intended transpose product the unlabelled prediction stores example k's value at index k, one per example |
| SvmOracle.RawPredictionAsWritten | src/oracles/Svm.cpp:84 | as written, the transposed prediction comes from the sparse transpose product, which leaves stored indices at 0 |
| SvmOracle.RawPredictionAt | src/oracles/Svm.cpp:104-116 | before labelling, the prediction at example i is the kernel of examples i and the pick, negated for a negated pick |
| SvmOracle.PredictionOfPick | src/oracles/Svm.cpp:118-120 | the labelled prediction stands for the picked kernel column, negated for a negated pick and multiplied by the labels |
| SvmOracle.FindMaximumEdge | src/oracles/Svm.cpp:32-127 | the corrected oracle returns a linear learner over one coordinate per feature whose prediction stores one value per example |
| SvmOracle.FindMaximumEdgeAsWritten | src/oracles/Svm.cpp:32-127 | the learner as written has the same shape and is the corrected learner whenever the data are not transposed |
| SvmOracle.LearnerOfPick | src/oracles/Svm.cpp:75-126 | the learner returned is built from the selected pick: its weight vector, its labelled prediction and its reported edge |
| SvmOracle.PredictionEdge | src/oracles/Svm.cpp:91-95 | the edge of the pick's prediction under dist is the picked example's edge, negated for a negated pick |
| SvmOracle.ReportedEdgeIsEdge | src/oracles/Svm.cpp:95-125 | the returned learner's prediction has, under dist, exactly the edge the learner reports |
| SvmOracle.PredictionIsLabelledKernel | src/oracles/Svm.cpp:104-125 | the returned prediction stands for the picked example's kernel column, negated for a negated pick and multiplied by the labels |
| SvmOracle.MaximumEdgeIsBest | src/oracles/Svm.cpp:55-75 | the returned learner's edge is at least every example's kernel correlation with the margins and, when reflexive, at least every negated one |
| SvmOracle.TransposedPredictionLosesIndices | src/oracles/Svm.cpp:107-120 | two examples labelled +1 and -1 sharing one feature: as written the transposed prediction stands for (2, 0), while the corrected one stands for (1, -1) |
| StumpOracle.ArgSort | src/oracles/DecisionStump.cpp:310-348 | `argsort` returns every stored position once, plus the sentinel exactly when some example is not stored |
| StumpOracle.ArgSortOrder | src/oracles/DecisionStump.cpp:331 | the result is in (value, position) order, so the sentinel comes after every explicitly stored zero |
| StumpOracle.Weights | src/oracles/DecisionStump.cpp:188-195 | the weight a scan adds at a position is the stored example's margin, or `dist_diff` at the sentinel |
| StumpOracle.WeightsAsWrittenAgrees | src/oracles/DecisionStump.cpp:164 | the loop as written stays within the stored indices exactly when no sentinel is read, and then reads the intended weights |
| StumpOracle.ArgSortedWeightsAsWrittenFail | src/oracles/DecisionStump.cpp:164 | on every row with an implicit zero the loop as written reads past the stored indices |
| StumpOracle.WeightsAsWrittenReadsPastEnd | src/oracles/DecisionStump.cpp:233 | a concrete two-example row with one stored value on which the loop as written reads past its stored indices |
| StumpOracle.WeightsSum | src/oracles/DecisionStump.cpp:281-286 | along the argsort result the weights add up to init_edge: `dist_diff` stands for exactly the unstored examples |
| StumpOracle.ScanIsMaximal | src/oracles/DecisionStump.cpp:133-204 | each directional scan returns the largest of init_edge and the edges at the value boundaries, the first such boundary's value as threshold |
| StumpOracle.ScanIsBestStump | src/oracles/DecisionStump.cpp:161-198 | scanning from the total weight, the recorded edge is the edge of the stump at the recorded threshold, and no stump with an example on its +1 side does better |
| StumpOracle.ReverseEdge | src/oracles/DecisionStump.cpp:231 | running the values and weights backwards gives every stump the same edge, so the `<=` scan is the `>=` loop run backwards |
| StumpOracle.SlotEdgeIsRowEdge | src/oracles/DecisionStump.cpp:281-286 | the scans' edge of any stump along the argsort result equals its edge over the examples themselves |
| StumpOracle.DirectionScanEdge | src/oracles/DecisionStump.cpp:133-263 | each directional scan reports an edge of at least init_edge that is the edge over the examples of the stump it reports |
| StumpOracle.DirectionScanBest | src/oracles/DecisionStump.cpp:133-263 | no stump in the scan's direction that puts some example on its +1 side has a larger edge over the examples |
| StumpOracle.BestThresholdEdge | src/oracles/DecisionStump.cpp:266-307 | `find_best_threshold` reports an edge of at least init_edge, that is the reported stump's edge over the examples, and comes from the `<=` direction only under `less_than` |
| StumpOracle.BestThresholdIsBest | src/oracles/DecisionStump.cpp:289-304 | the reported edge beats every stump in direction `>=`, or `<=` under `less_than`, that puts some example on its +1 side |
| StumpOracle.NewOracle | src/oracles/DecisionStump.cpp:11-33 | the constructor keeps the data, the labels and `less_than`, and argsorts every row once |
| StumpOracle.NewOracleSorted | src/oracles/DecisionStump.cpp:25-29 | each stored argsort is in pair order, holds each stored position once plus the sentinel when some example is not stored, and puts the sentinel after every explicit zero |
| StumpOracle.Edges | src/oracles/DecisionStump.cpp:63-69 | there is one best edge per row |
| StumpOracle.LabelledPrediction | src/oracles/DecisionStump.cpp:78-112 | the prediction stores one value per example of the picked row |
| StumpOracle.AsWrittenAgrees | src/oracles/DecisionStump.cpp:49-75 | the oracle as written returns a learner exactly when some row's edge beats -1, and then the corrected learner |
| StumpOracle.GeReadUninitialised | src/oracles/DecisionStump.cpp:49-124 | one example labelled -1 carrying all the weight makes the only row's edge -1, so `ge` is read without having been assigned |
| StumpOracle.PredictionEdgeIsRowEdge | src/oracles/DecisionStump.cpp:94-112 | the edge recomputed from the labelled prediction is the stump's edge over the examples under the margins |
| StumpOracle.StumpForPrediction | src/oracles/DecisionStump.cpp:113-125 | the returned stump's weight vector is the single 1 at its row, and its stored prediction at example i is its own whole-matrix prediction there times label i |
| StumpOracle.RowChoiceEdge | src/oracles/DecisionStump.cpp:68 | each row's choice is at least the total margin and is the edge over the examples of the stump it names |
| StumpOracle.MaximumEdgeChoice | src/oracles/DecisionStump.cpp:63-125 | when some row beats -1 the oracle returns the stump of the first row with the largest best edge, at that row's threshold and direction, and its recomputed edge is that best edge |
| StumpOracle.MaximumEdgeIsBest | src/oracles/DecisionStump.cpp:44-130 | when some row beats -1 no stump the scans cover, on any row, does better than the returned one |
| Loss.DefaultEvaluator | src/EvaluateLoss.cpp:8-13 | the default evaluator breaks ties in favour of +1 |
| Loss.BreakTie | src/EvaluateLoss.cpp:36-48 | a zero prediction becomes +1 exactly under tie breaking and -1 otherwise; any other prediction is kept |
| Loss.BinaryLossIsSignDisagreement | src/EvaluateLoss.cpp:30-57 | one example is an error exactly when its label is nonzero and its sign differs from the sign the prediction votes for, ties included |
| Loss.ErrorsWithinLabelled | src/EvaluateLoss.cpp:68-90 | only examples with a nonzero label can count as errors |
| Loss.BinaryLossAll | src/EvaluateLoss.cpp:60-96 | the batch count is the number of errors, at most the number of predictions; the rate is undefined (0/0) exactly when there are no predictions and otherwise is the count over the number of predictions |
| Timing.NewTimer | src/Timer.cpp:20-29 | a new timer is not started, has counted no calls, and has zero totals with the extreme doubles as longest and shortest |
| Timing.Start | src/Timer.cpp:31-41 | `start` marks the timer started for a non-negative CPU reading and leaves every record alone |
| Timing.Record | src/Timer.cpp:59-61 | recording an interval adds it to the total, and the longest and shortest become the larger and smaller of the old value and the interval |
| Timing.Stop | src/Timer.cpp:44-74 | `stop` fails with a runtime error exactly when the timer is not started; otherwise it records now minus the start on both clocks, counts one call and clears the start |
| Timing.Reset | src/Timer.cpp:76-88 | `reset` restores the constructed state except for the last intervals, which the constructor leaves uninitialised |
| Timing.StopBeforeStartFails | src/Timer.cpp:47-52 | stopping a freshly constructed timer fails |
| Timing.StopTwiceFails | src/Timer.cpp:58 | a second stop without a start in between fails |
| Timing.RecordKeepsRecords | src/Timer.cpp:59-70 | recording a finite interval keeps a record exact: the sum of the intervals, attained bounds on every one, and the last one |
| Timing.LapsRecord | src/Timer.cpp:31-74 | well-timed start/stop laps all succeed, each counts one call and records its CPU and wall-clock intervals in lap order |
| Timing.TimerTotals | src/Timer.cpp:20-74 | after k well-timed laps from construction the timer counts k calls and on each clock its total is the sum of the intervals, with attained longest and shortest |
| Optimizers.NewOptimizer | src/optimizers/AbstractOptimizer.cpp:48-69 | a new optimizer has no learners, x all zeros with one dual variable in the binary layout and dim otherwise, and gap, smallest primal value and dual objective at DBL_MAX, so the gap test passes only for epsilon above twice DBL_MAX |
| Optimizers.ClampIsNearest | src/optimizers/AbstractOptimizer.cpp:118 | clamping to [0, 1] gives the point of [0, 1] nearest its argument, and keeps exactly the arguments already inside |
| Optimizers.Alpha | src/optimizers/AbstractOptimizer.cpp:118 | the step length lies in [0, 1]; with a nonzero denominator it is the clamped quotient; with a zero one it follows the IEEE infinity or NaN: 1 for a NaN or a positive infinity, 0 for a negative one |
| Optimizers.StepLength | src/optimizers/AbstractOptimizer.cpp:92-119 | the step of `push_back` lies in [0, 1] and is 1 for the first learner |
| Optimizers.PushBack | src/optimizers/AbstractOptimizer.cpp:89-175 | `push_back` counts one more learner, appends its dense column, resets gap, smallest primal and dual objective to DBL_MAX, and changes nothing else |
| Optimizers.PushBackLayout | src/optimizers/AbstractOptimizer.cpp:131-161 | the new x holds the old weights scaled by 1 minus the step, then the step (1 for the first learner), then the old dual variables one place on |
| Optimizers.PushBackResetsGap | src/optimizers/AbstractOptimizer.cpp:165-172 | after a push the gap test fails unless epsilon exceeds twice DBL_MAX |
| Optimizers.PushBackKeepsSimplex | src/optimizers/AbstractOptimizer.cpp:143-155 | weights that lay in [0, 1] and summed to one (or were none) still do after a push |
| Optimizers.PushBackShiftsDuals | src/optimizers/AbstractOptimizer.cpp:157-161 | the dual variables move one place on, unchanged |
| Optimizers.PushBackColumn | src/optimizers/AbstractOptimizer.cpp:121-127 | for strictly increasing indices the new column is the dense vector u stands for |
| Optimizers.PushBackMixes | src/optimizers/AbstractOptimizer.cpp:94-161 | in the transposed layout the new weights mix the columns into (1 - alpha) times the old combination plus alpha times the new column: a convex step towards the new learner |
| Optimizers.CombinationIsMix | src/optimizers/AbstractOptimizer.cpp:97-109 | the combination `UW` a push subtracts is the weighted mix of the stored columns |
| Optimizers.LogOnePlusX | src/optimizers/AbstractOptimizer.cpp:16-46 | arguments at or below -1 are rejected with `invalid_argument`, every other argument gives the value supplied for log(1 + x) |
| ProjectedGradient.BoxClampIsNearest | src/optimizers/ProjectedGradientOptimizer.cpp:48-52 | within a non-empty box the clamp is the nearest point of the box and keeps exactly the values inside it |
| ProjectedGradient.PhiPoint | src/optimizers/ProjectedGradientOptimizer.cpp:38-56 | `phi` writes z + lambda times a, clamped into the box, at every coordinate |
| ProjectedGradient.PhiMonotone | src/optimizers/ProjectedGradientOptimizer.cpp:38-56 | with non-empty boxes the residual of `phi` does not decrease as lambda grows, which the bracketing phase of `project` relies on |
| ProjectedGradient.ErlpBounds | src/optimizers/ProjectedGradientOptimizer.cpp:184-214 | the ERLPBoost projection's boxes are all non-empty |
| ProjectedGradient.ErlpFeasibleIff | src/optimizers/ProjectedGradientOptimizer.cpp:184-214 | a point is feasible for the ERLPBoost projection exactly when its weights lie on the simplex and every psi lies in [0, infinity] |
| ProjectedGradient.BinaryFeasibleIff | src/optimizers/ProjectedGradientOptimizer.cpp:216-241 | a point is feasible for the binary projection exactly when its weights lie on the simplex and beta lies in [-infinity, infinity] |
| ProjectedGradient.ProjectStatus | src/optimizers/ProjectedGradientOptimizer.cpp:116-124 | `project` answers `size_t(-1)` exactly when the bracket has grown past infinity, and otherwise the iteration count |
| ProjectedGradient.RingSlots | src/optimizers/ProjectedGradientOptimizer.cpp:255-268 | the value of iteration t of the last M sits in slot t mod M, and unused slots hold -DBL_MAX |
| ProjectedGradient.CurrentObjectiveSlot | src/optimizers/ProjectedGradientOptimizer.cpp:347 | the slot the failure branch reads holds the objective of the current iterate |
| ProjectedGradient.ObjMaxIsWindowMax | src/optimizers/ProjectedGradientOptimizer.cpp:333-337 | with finite objective values `obj_max` is the largest of the last M objective values, the reference value of the non-monotone line search |
| ProjectedGradient.StepSize | src/optimizers/ProjectedGradientOptimizer.cpp:338-342 | the Barzilai-Borwein step lies in [alpha_min, alpha_max]: alpha_max when s·y is not positive, otherwise s·s / s·y clamped into that range |
| ProjectedGradient.TrialStep | src/optimizers/ProjectedGradientOptimizer.cpp:347-348 | the trial step is finite exactly when its denominator is nonzero and then solves the quadratic's equation; a NaN comes exactly from 0/0 |
| ProjectedGradient.Backtrack | src/optimizers/ProjectedGradientOptimizer.cpp:358-359 | the safeguarded step lies between sigma1 and sigma2 times lambda, is the trial step when that lies in between, sigma2 times lambda for a positive infinity or a NaN, and sigma1 times lambda for a negative infinity |
| ProjectedGradient.BacktracksShrink | src/optimizers/ProjectedGradientOptimizer.cpp:344-361 | after k failed tests the step lies between sigma1^k and sigma2^k times the first one, so backtracking shrinks it geometrically |
| Boosting.UniformDistribution | src/boosters/AbstractBooster.cpp:20-26 | the starting distribution has one entry per example, each 1/n |
| Boosting.UniformIsDistribution | src/boosters/AbstractBooster.cpp:42-48 | the uniform start is a probability distribution: every entry in (0, 1] and the entries sum to one |
| Boosting.RunEnds | src/boosters/AbstractBooster.cpp:66-100 | a run from iteration i ends between i and max_iterations, and short of max_iterations only on a state that meets the stopping criterion |
| Boosting.CeilOfFloor | src/boosters/AbstractBooster.cpp:79-120 | the snapshots counted inside the loop plus the final one make the ceiling of the iteration count over the display frequency |
| Boosting.Boost | src/boosters/AbstractBooster.cpp:62-133 | `boost` fails exactly when a distribution update throws; otherwise it reports the run's final state and iteration count, "exceeded" exactly at max_iterations, and ceil(num_iter / abs(display_frequency)) snapshots |
| Boosting.NewGap | src/boosters/ErlpBoost.cpp:24 | the bounds start at -1 and 1 |
| Boosting.Lower | src/boosters/ErlpBoost.cpp:102-105 | the smallest objective value takes gamma exactly when gamma is smaller, and the other bound and epsilon stay |
| Boosting.NewGapConverged | src/boosters/ErlpBoost.cpp:79-86 | with the starting bounds the stopping test holds at once exactly when epsilon is at least 4 |
| Boosting.LowerMonotone | src/boosters/ErlpBoost.cpp:89-107 | lowering the bound never undoes convergence, and lowering twice by the same value is lowering once |
| Boosting.LowerAllIsMinimum | src/boosters/ErlpBoost.cpp:89-107 | after any run of values the upper bound is the minimum of the start and those values |
| Boosting.DefaultEta | src/boosters/ErlpBoost.cpp:28-35 | eta times epsilon is twice log(n/nu), plus 2 in the binary variant |
| Erlp.NewErlp | src/boosters/ErlpBoost.cpp:14-61 | a new booster has the uniform distribution, an empty ensemble, the starting bounds, no learner seen, and the given optimizer, nu, eta and variant |
| Erlp.UpdateStopping | src/boosters/ErlpBoost.cpp:89-107 | the bound is lowered by the learner's edge plus the relative-entropy term of the variant in use, and nothing else changes |
| Erlp.UpdateEnsemble | src/boosters/ErlpBoost.cpp:71-76 | the learner joins with weight 0; the booster remembers whether it merged with an equal member; the size grows exactly for a new member and the total weight stays |
| Erlp.UpdateEnsembleKeepsPrediction | src/boosters/ErlpBoost.cpp:73 | a weight-0 member changes no prediction of an ensemble of its kind |
| Erlp.Pushed | src/boosters/ErlpBoost.cpp:116-121 | the prediction is pushed into the optimizer exactly for a new member |
| Erlp.UpdateDistribution | src/boosters/ErlpBoost.cpp:110-139 | the update fails with a runtime error exactly when `solve` returns nonzero; otherwise the members take the optimizer's weights, the learners stay, the lower bound is minus the dual objective, and the distribution is the optimizer's |
| Erlp.UpdateEnsembleThenPush | src/boosters/ErlpBoost.cpp:71-121 | the learner reaches the optimizer exactly when it became a new member, which brings the optimizer back to one column per member |
| Erlp.IterationStaysSynced | src/boosters/ErlpBoost.cpp:71-139 | one iteration from an ensemble in step with the optimizer ends in step again, one optimizer weight per member, or with the solver's error |
| Corrective.NewCorrective | src/boosters/CorrectiveBoost.cpp:12-48 | a new booster has the uniform distribution, an empty ensemble, the starting bounds, an empty UW and the given nu, eta and line-search flag |
| Corrective.UpdateStopping | src/boosters/CorrectiveBoost.cpp:155-159 | the bound is lowered by the learner's edge plus the entropy term, and nothing else changes |
| Corrective.Direction | src/boosters/CorrectiveBoost.cpp:81-99 | the direction has one entry per example: the dense prediction, less UW once UW has entries |
| Corrective.StepLength | src/boosters/CorrectiveBoost.cpp:101-111 | the step lies in [0, 1] |
| Corrective.NextUw | src/boosters/CorrectiveBoost.cpp:125-140 | the new UW has one entry per example |
| Corrective.MergedOutcome | src/boosters/CorrectiveBoost.cpp:119-123 | merging into an equal member k keeps the learners and gives the scaled weights with weight k raised by alpha |
| Corrective.AppendedOutcome | src/boosters/CorrectiveBoost.cpp:119-123 | with no equal member the learner is appended with weight alpha after the other weights are scaled by 1 - alpha |
| Corrective.UpdateEnsemble | src/boosters/CorrectiveBoost.cpp:77-143 | the total weight becomes (1 - alpha) times the old total plus alpha, UW moves to (1 - alpha) UW + alpha times the prediction, and nothing else changes |
| Corrective.UpdateEnsembleMixes | src/boosters/CorrectiveBoost.cpp:119-140 | UW stays the weighted sum of the members' predictions through every corrective step, whether the learner merges or is appended |
| Corrective.UpdateEnsembleSubStochastic | src/boosters/CorrectiveBoost.cpp:119-123 | the weights stay non-negative with a total of at most one |
| Corrective.Exponents | src/boosters/CorrectiveBoost.cpp:58-69 | the shifted exponents -eta UW[i] - max are never positive, the maximum is at least 0, and one exponent is 0 unless the maximum stayed at its start |
| LpBoosting.SumRowHolds | src/boosters/LpBoost.cpp:36-47 | the constructor's row holds at a point exactly when the distribution part of the point sums to one |
| LpBoosting.EdgeRowHolds | src/boosters/LpBoost.cpp:88-98 | a learner's row holds at a point exactly when the learner's edge under the distribution part is at most xi |
| LpBoosting.NewLpBoost | src/boosters/LpBoost.cpp:12-50 | a new booster has the uniform distribution, an empty ensemble, the starting bounds, the objective "minimise xi" over 1 + n columns, and the sum row alone |
| LpBoosting.NewLpFeasible | src/boosters/LpBoost.cpp:27-47 | the constructor's program has a solution before any learner arrives, xi at the starting bound and d uniform, whenever 1/n does not exceed the cap 1/nu |
| LpBoosting.UpdateEnsemble | src/boosters/LpBoost.cpp:58-62 | the learner joins or merges with weight 1, so the total weight grows by one; it is appended exactly when no member equals it |
| LpBoosting.UpdateStopping | src/boosters/LpBoost.cpp:70-75 | the smallest edge seen takes the learner's edge when that is smaller, and nothing else changes |
| LpBoosting.UpdateWeights | src/boosters/LpBoost.cpp:77-142 | the learner's row is added and the program solved; the distribution is the primal solution past xi, member i's weight is minus the dual of row i+1, the learners stay, and xi's solution becomes the lower bound on column 0 and in the gap |
| LpBoosting.FeasibleIsCapped | src/boosters/LpBoost.cpp:30-34 | a point of the program is a distribution capped at 1/nu |
| LpBoosting.FeasibleEdgeBelowXi | src/boosters/LpBoost.cpp:88-98 | at a point of the program every learner with a row has edge at most xi |
| LpBoosting.UpdateWeightsStaysFeasible | src/boosters/LpBoost.cpp:133-137 | raising xi's lower bound to the solution's xi cuts nothing off the booster's own point |
| LpBoosting.SeenLearnerStops | src/boosters/LpBoost.cpp:64-75 | a learner whose row is already in a solved program makes the stopping test hold, so LPBoost stops before such a learner comes back |
| LpBoosting.NewLpBoostAligned | src/boosters/LpBoost.cpp:47 | the constructor starts with rows and members in step: the sum row and no member |
| LpBoosting.NewLearnerKeepsAligned | src/boosters/LpBoost.cpp:58-126 | a new learner keeps rows and members in step, so every member's weight is minus the dual value of the row built from its own prediction |
| LpBoosting.MergeOnlyAfterStop | src/boosters/LpBoost.cpp:58-75 | a learner that `add` would merge into an equal member already makes the stopping test hold, so merging never happens before the stop |
| Factories.ReadText | src/boosters/boosters_factory.cpp:31-32 | a string setting reads as the configured text when the key holds text, and as the default otherwise |
| Factories.ReadNumber | src/boosters/boosters_factory.cpp:52-56 | a double setting reads as the configured number when the key holds one, and as the default otherwise |
| Factories.ReadWhole | src/boosters/boosters_factory.cpp:37-38 | an int setting reads as the configured whole number when the key holds one; `max_iter` without a default keeps its initial 0 |
| Factories.ReadFlag | src/boosters/boosters_factory.cpp:58-59 | a bool setting reads as the configured flag when the key holds one, and as the default otherwise |
| Factories.ReadsWhatWasWritten | src/boosters/boosters_factory.cpp:52-59 | whatever the default, a value written under a key is what the reader of its kind returns |
| Factories.OtherKeysRead | src/boosters/boosters_factory.cpp:52-76 | writing one key leaves what every other key reads unchanged, so the settings are independent |
| Factories.NamedOptimizer | src/optimizers/optimizers_factory.cpp:46-61 | exactly "pg", "hz", "lbfgsb" and "cd" name an optimizer, and the kind named is printed back under that same name |
| Factories.NewOptimizerInstance | src/optimizers/optimizers_factory.cpp:19-68 | the optimizer is built exactly when `optimizer_type` (default "lbfgsb") is one of the four names, as that kind and with the caller's settings; "tao" is an invalid argument and every other name a runtime error |
| Factories.OptimizerNameRoundTrip | src/optimizers/optimizers_factory.cpp:30-61 | naming a kind builds that kind with the caller's settings, and a configuration without the key builds L-BFGS-B |
| Factories.NewOracleInstance | src/oracles/oracles_factory.cpp:14-50 | the oracle is built exactly when `oracle_type` is "rawdata", "svm" or "decisionstump", each over the given data and labels with `reflexive` (default false); every other name is a runtime error |
| Factories.OracleNameRoundTrip | src/oracles/oracles_factory.cpp:23-47 | the oracle built is of the kind named, and a configuration without `oracle_type` builds none |
| Factories.NewBoosterInstance | src/boosters/boosters_factory.cpp:20-157 | no oracle or an unknown `booster_type` is a runtime error; otherwise the booster named (default ERLPBoost, with its three aliases) is built with `max_iter` as its bound and the matching display interval, and LPBoost is built exactly when the LP solver is available, an invalid argument otherwise |
| Factories.DefaultBoosterIsErlp | src/boosters/boosters_factory.cpp:31-99 | a configuration with no keys builds ERLPBoost with epsilon 0.001, nu 1, the plain relative entropy, the default eta and a transposed L-BFGS-B optimizer holding those same values |
| Factories.ErlpSharesSettings | src/boosters/boosters_factory.cpp:89-99 | the ERLPBoost built and its optimizer agree on eta, nu, epsilon and the variant; the optimizer works on the transposed data with one dual variable per example (one for the binary variant) |
| Factories.UnknownOptimizerFails | src/boosters/boosters_factory.cpp:89-94 | ERLPBoost and tKlBoost fail with the optimizer factory's error on an unknown `optimizer_type`, an invalid argument exactly for "tao" |
| LibSvm.TakenIsPrefix | src/LibSvmReader.cpp:45-53 | the lines read are the examples before the first blank line (all lines when none is blank), and the line after them is blank |
| LibSvm.RowOf | src/LibSvmReader.cpp:62-104 | an example's stored entries are its words after the label, one per word and in word order |
| LibSvm.RowsOf | src/LibSvmReader.cpp:45-106 | one stored row per line read, each that line's entries |
| LibSvm.LabelsOf | src/LibSvmReader.cpp:57-60 | one label per line read, the truncated label of that line |
| LibSvm.MaxIndexIsMax | src/LibSvmReader.cpp:83-86 | `max_index` is at least every stored index and, unless 0, is one of them |
| LibSvm.ReadRows | src/LibSvmReader.cpp:25-127 | an unopenable file is an invalid argument naming the file; otherwise one example per line read with that line's entries in order, all of dimension `max_index + 1`, and the truncated labels |
| LibSvm.ReadRowsInRange | src/LibSvmReader.cpp:108-122 | every example read has the same dimension, every stored index lies below it, and the last coordinate is a stored index unless the dimension is 1 |
| LibSvm.Columns | src/LibSvmReader.cpp:262-268 | one feature vector per feature, each over all examples read and holding that feature's entries |
| LibSvm.ReadTransposed | src/LibSvmReader.cpp:131-344 | the transposing reader fails exactly on an unopenable file (invalid argument) or a word that does not parse (runtime error); otherwise it returns one vector per feature 0..`max_index` over the examples, and the labels |
| LibSvm.ColumnValue | src/LibSvmReader.cpp:321-324 | feature j's vector holds, at example p, example p's value at feature j |
| LibSvm.ColumnOrdered | src/LibSvmReader.cpp:273-330 | feature j's entries come in line order: their example indices never decrease, and they strictly increase when no line repeats an index |
| LibSvm.RepeatBreaksIncrease | src/LibSvmReader.cpp:321-326 | a line that stores feature j twice puts two entries with its own line number into feature j's vector |
| LibSvm.ColumnsIncreasingIff | src/LibSvmReader.cpp:273-330 | every feature's entries strictly increase exactly when no line repeats an index |
| LibSvm.ReadTransposedOrdered | src/LibSvmReader.cpp:273-330 | every vector the transposing reader returns has non-decreasing example indices below the number of examples; all strictly increase exactly when no line read repeats a feature index |
| LibSvm.StaleUnused | src/LibSvmReader.cpp:76-81 | when every word parses, the uninitialised index and value of a failed `sscanf` never reach a row |
| LibSvm.TransposedIsTranspose | src/LibSvmReader.cpp:25-344 | when every word parses, both readers succeed, agree on the labels and the number of features, and the transposing reader's vectors are the transpose of the plain reader's examples |
| LibSvm.CountPerFeature | src/LibSvmReader.cpp:210-259 | the second pass counts, for each feature, exactly the entries that feature's vector will store |
| LibSvm.FillLine | src/LibSvmReader.cpp:295-329 | one line's words each go into the next free slot of their own feature, keeping the first p + 1 lines in place |
| LibSvm.FillColumns | src/LibSvmReader.cpp:262-330 | the third pass fills every feature vector exactly, with that feature's entries in line order |
| LibSvm.BucketIsColumn | src/LibSvmReader.cpp:417-425 | the fast reader's bucket j holds exactly what the transposing reader stores for feature j |
| LibSvm.ReadLine | src/LibSvmReader.cpp:391-411 | the loop over one example's words stores its triples in order and keeps `max_col` the largest index seen so far |
| LibSvm.ReadWords | src/LibSvmReader.cpp:375-412 | the reading loop stores every word's (feature, example, value) triple in file order, the largest feature index, and the labels |
| LibSvm.BucketAll | src/LibSvmReader.cpp:417-425 | the bucketing loop puts each triple, in order, into the bucket of its feature |
| LibSvm.ReadTransposedFast | src/LibSvmReader.cpp:347-464 | return code 1 with nothing read for an unopenable file, else 0 with one vector per feature over the examples read, and the labels |
| LibSvm.FastAgrees | src/LibSvmReader.cpp:131-464 | when every word parses, the single-pass reader returns what the transposing reader returns |
| IdaConverter.FindMatching | tools/ida_benchmark_to_libsvm_file_format.py:16-26 | the file is found exactly when one name matches; none raises `Exception` and several fail the assertion |
| IdaConverter.BaseNameStripsSuffix | tools/ida_benchmark_to_libsvm_file_format.py:77-78 | slicing off `len(pattern) - 1` characters removes exactly the pattern's literal suffix, leaving what the `*` matched |
| IdaConverter.NumberedAt | tools/ida_benchmark_to_libsvm_file_format.py:42 | every data word is kept, the k-th becoming `<k+1>:<word>` |
| IdaConverter.LibSvmLineSplits | tools/ida_benchmark_to_libsvm_file_format.py:41-44 | the line written ends in a newline and splits back into the signed label followed by the numbered data words, in order |
| IdaConverter.ReadLine | tools/ida_benchmark_to_libsvm_file_format.py:33-34 | `readline()` returns "" exactly once the file is exhausted |
| IdaConverter.MergeFromWrites | tools/ida_benchmark_to_libsvm_file_format.py:29-51 | the merge succeeds exactly when every label reads as a number (`ValueError` otherwise), writing one line per line of the longer file, each built from the same line of both files |
| IdaConverter.MergeCheckedFromAgrees | tools/ida_benchmark_to_libsvm_file_format.py:36-39 | with the length check working, files of different lengths always fail, and files of the same length give what the merge as written gives |
| IdaConverter.MergeCheckedAgrees | tools/ida_benchmark_to_libsvm_file_format.py:29-51 | over whole files: different lengths fail, equal lengths merge as written |
| IdaConverter.MismatchNotCaught | tools/ida_benchmark_to_libsvm_file_format.py:36-39 | the length check never fires: a label file longer than the data file yields a label-only line, and a data file longer than the label file raises `ValueError` instead of the intended `Exception` |
| IdaConverter.SplitJobs | tools/ida_benchmark_to_libsvm_file_format.py:56-62 | each split has 100 jobs |
| IdaConverter.Jobs | tools/ida_benchmark_to_libsvm_file_format.py:56-69 | `main` runs 200 jobs, the train splits then the test splits |
| IdaConverter.RunJob | tools/ida_benchmark_to_libsvm_file_format.py:71-93 | a job succeeds only when each pattern matches one file and their base names agree; its output is named base + the output suffix and holds the merge of the two files |
| IdaConverter.RunAllRunsEach | tools/ida_benchmark_to_libsvm_file_format.py:54-96 | `main` succeeds exactly when every job does, producing each job's output in job order |
| IdaConverter.OutputNames | tools/ida_benchmark_to_libsvm_file_format.py:56-84 | the k-th output is `<base>_train_<k+1>.libsvm.txt` for the first 100 jobs and `<base>_test_<k-99>.libsvm.txt` for the last 100 |
| DataSets.Range | tools/process_data.py:50 | the identity arrangement of 0..m-1, the numbers a permutation rearranges |
| DataSets.RangeCounts | tools/process_data.py:50 | 0..m-1 holds each number below m once and nothing else |
| DataSets.Partition | tools/process_data.py:52-54 | the three parts put back together give the permutation: the first `int(.6m)` numbers, the numbers up to `int(.8m)`, then the rest |
| DataSets.PartitionIsPartition | tools/process_data.py:50-54 | for a permutation of 0..m-1 the three parts are pairwise disjoint and together hold every line number |
| DataSets.Pick | tools/process_data.py:61-62 | the lines at the given numbers, one per number and in the order given |
| DataSets.PickPermuted | tools/process_data.py:61-82 | picking by a rearrangement of the same numbers picks a rearrangement of the same lines |
| DataSets.SplitKeepsLines | tools/process_data.py:43-85 | train, validation and test together hold every input line exactly as often as the input does |
| DataSets.WrittenAsOne | tools/process_data.py:57-63 | a guarded write produces the named file exactly when no file by that name exists, and no other file |
| DataSets.DataSplitWrites | tools/process_data.py:27-85 | an existing target is left alone; a missing train, validation or test file is written with the lines of the first 60%, the next 20% or the rest of the permutation; nothing else is written |
| DataSets.Suffixes | tools/process_data.py:57-77 | the three target names differ, so the three writes never collide |
| DataSets.LastPart | tools/process_data.py:22 | `split(sep)[-1]` is never longer than the string |
| DataSets.LastPartSplits | tools/process_data.py:116-117 | the last part is a suffix free of the separator, preceded by the separator or by nothing |
| DataSets.Fetch | tools/process_data.py:110-122 | a successful fetch leaves the data set in the data directory and not in the working directory |
| DataSets.FetchNeedsMatchingKey | tools/process_data.py:115-120 | from a clean working directory the fetch succeeds exactly when the download is named by the key, or is the key plus ".bz2" from a "bz2" URL: the move goes by the key, not the downloaded name |
| DataSets.FetchPlain | tools/process_data.py:110-120 | a plain download saved under its key lands in the data directory |
| DataSets.FetchCompressed | tools/process_data.py:110-120 | a compressed download saved as the key plus ".bz2" is unpacked and lands in the data directory |
| DataSets.RegistryFetches | tools/process_data.py:90-122 | every data set of the registry, fetched into a clean working directory, lands in the data directory |
| DataSets.Concatenate | tools/process_data.py:128-149 | the concatenation only adds files, always leaves `a9a_all`, adds nothing but the two concatenated files, and leaves `astro-ph_all` exactly when it was there or both astro-ph halves are |
| DataSets.SplitListMembers | tools/process_data.py:155-162 | the five fixed data sets are always split, astro-ph exactly when its concatenated file exists, and nothing else |
| ConfigPrinter.Get | tools/print_configs.py:11 | indexing a dictionary gives the value held, and `KeyError` exactly when the key is missing |
| ConfigPrinter.OracleFor | tools/print_configs.py:50-55 | "ds" and only "ds" prints the decision stump, "rd" and only "rd" the raw-data oracle, and every other abbreviation the SVM |
| ConfigPrinter.OutputFields | tools/print_configs.py:26-44 | the output name is built exactly when every key it indexes is present (`KeyError` otherwise), from the long form with `eta` (and `opt` when given), the short form for AdaBoost, the middle form otherwise |
| ConfigPrinter.PrintConfig | tools/print_configs.py:5-126 | the file is written exactly when every indexed key is present; reflexive is "true" exactly for "t", the oracle follows the abbreviation, `eps` and `nu` appear exactly for non-AdaBoost runs, `eta` exactly when given, and `binary` and the optimizer exactly for the ERLPBoost runs |
| ConfigPrinter.EpsDefaultUnreachable | tools/print_configs.py:78-85 | whenever the tolerance is written it is "0." followed by the configured `eps`, so the 0.01 default is never written on its own |
| ConfigPrinter.Comment | tools/print_configs.py:7-9 | a comment line starts with `#` |
| ConfigPrinter.SettingLine | tools/print_configs.py:56 | a `key = value` line reads back as that key and value |
| ConfigPrinter.CommentsReadNothing | tools/print_configs.py:7-9 | comment and empty lines add nothing to the settings read |
| ConfigPrinter.OptionalReadsBack | tools/print_configs.py:87-91 | a block that writes a setting puts exactly that setting over what was read before it, and one that does not write changes nothing |
| ConfigPrinter.RenderReadsBack | tools/print_configs.py:5-126 | a printed file reads back as exactly the settings written into it |
| ConfigPrinter.SettingsAt | tools/print_configs.py:5-126 | each key of a printed file holds exactly the value written under it, or nothing when it is not written |
| ConfigPrinter.AsConfig | tools/print_configs.py:5-126 | the configuration loaded from a file has the file's keys, each holding its value as text |
| ConfigPrinter.PrintedOracleBuilds | tools/print_configs.py:48-58 | every printed `oracle_type` names an oracle the toolkit builds, of the kind the abbreviation stands for |
| ConfigPrinter.PrintedOptimizer | tools/print_configs.py:119-126 | an ERLPBoost file without a named optimizer asks for "tao", which the toolkit rejects as an invalid argument; the other files name none and the toolkit falls back to L-BFGS-B |
| ConfigPrinter.LpJobs | tools/print_configs.py:135-178 | `print_lp` prints 7 files in mode 0 and 63 in mode 1 |
| ConfigPrinter.AdaJobs | tools/print_configs.py:181-201 | `print_ada` prints one file per data set, 7 in all, each with the given iteration cap or `'50000'` when none is passed |
| ConfigPrinter.CorrectiveJobs | tools/print_configs.py:203-263 | `print_corrective` prints 7, 84 or 63 files in modes 0, 1 and 2 |
| ConfigPrinter.ErlpJobs | tools/print_configs.py:266-335 | `print_erlp` prints 7, 84 or 63 files in modes 0, 1 and 2 |
| ConfigPrinter.OptJobs | tools/print_configs.py:338-370 | `print_opt` prints one file per `eta`, 12 in all |
| ConfigPrinter.NamedAfterFields | tools/print_configs.py:26-44 | a job whose dictionary holds its directory and name fields prints without `KeyError` and names its results file like its configuration file |
| ConfigPrinter.LpAgrees | tools/print_configs.py:150-178 | every LPBoost file names its results file after itself |
| ConfigPrinter.AdaAgrees | tools/print_configs.py:194-201 | every AdaBoost file names its results file after itself |
| ConfigPrinter.CorrectiveAgrees | tools/print_configs.py:222-263 | every corrective file names its results file after itself |
| ConfigPrinter.ErlpAgrees | tools/print_configs.py:292-335 | every ERLPBoost file names its results file after itself |
| ConfigPrinter.OptAgrees | tools/print_configs.py:359-370 | every optimizer-comparison file names its results file after itself |
| ConfigPrinter.MainAgrees | tools/print_configs.py:373-392 | the main block prints 294 files, each naming its results file after itself |
| ConfigPrinter.DriverBoosters | tools/print_configs.py:148-220 | the LPBoost, AdaBoost and corrective drivers print booster types the toolkit knows |
| ConfigPrinter.ErlpAsksForTao | tools/print_configs.py:112-126 | the ERLPBoost drivers print no booster type and ask for the "tao" optimizer |

## Left out

- Vectors.DotSD, Vectors.DotSDIsDenseDot, LinAlg.ScaleSparseIsDenseScale, LinAlg.AxpySD: require every stored index to be below the dimension. The source reads `b.val[a.index[i]]` unchecked (src/math/vector_operations.cpp:168-211, 316-353), so an out-of-range index is undefined behaviour there. Every caller keeps stored indices below the dimension.
- LinAlg.NormalizeDense, LinAlg.NormalizeSparse: a zero total divides by zero in the source (IEEE infinities or NaN); the model asks for a nonzero total.
- Boosting.DefaultEta, Factories.EtaOf, Factories.NewBoosterInstance, Factories.ErlpSharesSettings, Factories.UnknownOptimizerFails: require a nonzero epsilon when eta is left to its default, and a nonzero nu for LPBoost. The source divides by them and gets an IEEE infinity, which exact reals cannot hold.
- LpBoosting.NewLpBoost, LpBoosting.NewLpBoostAligned: require nonzero nu, because the column bound is 1/nu. LpBoosting.NewLpFeasible further assumes 0 < nu <= n, the range in which the capped simplex is not empty.
- Boosting.Boost: requires a nonzero display interval, because the source takes the iteration count modulo it. The factory always passes 10 or 250.
- Ensembles.PredictDense, Ensembles.PredictMatrix, Ensembles.AddPredict: require every member's weight vector to have the dimension of the data. The source reads out of bounds otherwise, and an ensemble only ever holds learners its oracle built over that data.
- Optimizers.PushBack, Erlp.UpdateDistribution, Corrective.UpdateEnsemble, LpBoosting.UpdateWeights: require the prediction, the distribution and the stored columns to have matching sizes. They also require the solver passed in to return vectors of the sizes it was given. The source reads out of bounds otherwise, and the boosters only ever pass the oracle's prediction over the same examples.
- StumpOracle: rows are taken to store fewer than 2^31 entries. The scans recognise the argsort's sentinel through `(int)` casts (src/oracles/DecisionStump.cpp:148, 167, 188, 223, 236, 251) and count with `int` (:221, :231), so in the source a stored position of 2^31 or more would read as the sentinel; the model tests a position against the number of stored entries.
- StumpOracle.FindBestThreshold, StumpOracle.RowChoice, StumpOracle.FindMaximumEdge, StumpOracle.FindMaximumEdgeAsWritten: require at least one example and at least one row. The source reads `indices.val[0]` (src/oracles/DecisionStump.cpp:148) and `data[max_index]` (:78) without a check, so on an empty data set it reads out of bounds.
- Exp, log and entropy are not computed. `Boosting.DefaultEta` takes the logarithm as a parameter, and `Optimizers.LogOnePlusX` takes the series value as a parameter.
- Corrective.Exponents: the model stops at the shifted exponents. Three steps of the source are left out: the exponentials, the distribution computed from them, and the projection onto the simplex (`proj_simplex`, src/boosters/CorrectiveBoost.cpp:66-71, 163-214). The `linesearch` flag is read and then ignored, as in the source.
- The numeric solvers are left out: L-BFGS-B, TAO, the coordinate-descent and Zhang–Hager optimizers, the CLP linear program solver, and the body of the projected-gradient `solve` and of its Dai–Fletcher projection loop. Each is a parameter returning a solution. The model keeps the state they share, the rules for step size, backtracking and ring buffer, and the projection's bounds and status codes.
- Optimizers.PushBackMixes: states the mixture only for the transposed layout, which is the only one the boosters use.
- tKlBoost and AdaBoost are kept only as the factory's results. tKlBoost's `compute_nu` and `compute_eta` are a parameter of the factory, and neither booster's own update is modelled.
- Timing: the clock is a parameter, and the timer and log output of `boost` are left out.
- Printed and logged messages are left out, except the error text an exception carries.
- Streams.ExpectKeyword, Streams.WordText: a printed double inside the word quoted after "but got" is shown as `<double>`, because the digits `operator<<` prints are not modelled. A word of characters is quoted exactly.
- RawDataOracle.RawPrediction, SvmOracle.Weight, SvmOracle.RawPrediction, SvmOracle.RawPredictionAt, WeakLearners.PredictSparse, Ensembles.PredictSparse, LinAlg.MatVecSparse, LinAlg.Dot: compute the sparse·sparse dot with the corrected merge `Vectors.DotSS` of the first Findings row. The source calls the unguarded loop of src/math/vector_operations.cpp:168-188 (from src/oracles/RawDataOracle.cpp:81 and 109 and src/oracles/Svm.cpp:83-115), which reads past the end on ordinary inputs such as the row {0:1} against the unit weight {2:1}; there the source's result is undefined.
- LibSvm.ReadTransposedOrdered: a line that repeats a feature index, such as "1 3:1 3:2", gives that feature's vector two entries for one example. Such a vector is not `Increasing`, which the oracles and `Vectors.DotSS` require, so their guarantees cover only files whose lines do not repeat an index.
- Signed zero and IEEE rounding are not modelled. This includes the printer's precision, which is a parameter, and `int(.6*m)`, which is taken as exact.
- LibSvm: a label is the truncated exact value; `float` precision is not modelled.
- LibSvm.ReadTransposedFast: the source reads the label as an `int`, so a fractional label such as 1.5 gives 1 and leaves ".5" to be read as a word. The model gives this reader the truncated label, as the other readers get, and no extra word.
- LibSvm: a partial `sscanf` parse is lumped with a failed one.
- ConfigPrinter.AsConfig: every value is held as text, because the toolkit's typed `ConfigFile` parser is not part of this model. `ConfigPrinter.ReadBack` is a reference reader for the printed format.
- ConfigPrinter: Python's formatting of the float `nu` is a parameter (`show`), and no value is taken to contain a newline.
- ConfigPrinter.PrintConfig: the file is opened before the first `KeyError`, so a failing call can leave an empty or partial file. The model returns only the error.
- DataSets: `bunzip2` refusing to overwrite, `inf`/`nan` from `float()`, and dictionary iteration order are not modelled. The download itself is a value passed in.
- DataSets and IdaConverter: a partially written file left behind by an exception is not modelled.
- `diffnorm`, `copy`, `relative_entropy` and `binary_relative_entropy` in src/math/vector_operations.cpp are not part of the modelled core.
- Lines that do not compile are modelled as evidently intended, and the ones that do compile are modelled as written:
  - the call to `update_weights` under a different name;
  - `thresh` against `threshold`;
  - `wt.idx`.
- Factories.NewOptimizerInstance: models the build without `USE_TAO`, where "tao" is an invalid argument. The TAO optimizer built under `USE_TAO` (src/optimizers/optimizers_factory.cpp:38-39, which assigns to an undeclared `solver`) is not modelled.
- LpBoosting: the destructor's `delete`/`delete[]` mismatch is a memory matter. It is not modelled.

## Findings

| source | as written | input that shows it | evidently intended | confidence | as-written member | corrected member |
|---|---|---|---|---|---|---|
| src/math/vector_operations.cpp:176-180 | after `i++` or `j++` the next comparison reads `a.index[i]`/`b.index[j]` even when the cursor has reached nnz | a = {1: 1.0}, b = {2: 1.0}: after skipping a's only entry the loop reads `a.index[1]` | compare only while both cursors are in range | high (not executed) | Vectors.DotAsWrittenReadsPastEnd | Vectors.DotSSIsDenseDot |
| src/math/vector_operations.cpp:255-258 | the same unguarded reads in the `hadamard` merge | a = {3: 1.0}, b = {0: 1.0}: after skipping b's only entry the loop reads `b.index[1]` | compare only while both cursors are in range | high (not executed) | Vectors.HadamardAsWrittenReadsPastEnd | Vectors.HadamardIsPointwise |
| src/math/vector_operations.cpp:360 | `sum(SparseVector)` adds `val[index[i]]` | a 5-vector with one value stored at index 3 | add `val[i]` | high (not executed) | LinAlg.SumSparseAsWrittenReadsPastEnd | LinAlg.SumSparseIsDenseSum |
| src/math/vector_operations.cpp:151-163 | the sparse `transpose_dot` zeroes `res.index` and never sets it | rows {(0, 1)}, vector (1): the result stores 1 under index 0 | `res.index[k] = k` | high (not executed) | LinAlg.TransposeDotSparseAsWrittenMisplaces | LinAlg.TransposeDotSparseIsDense |
| src/weak_learners/DecisionStumpWeakLearner.cpp:38-45 | the copy constructor copies `wt`, `thresh` and `direction` but not `index`, which keeps whatever the storage held | a stump on feature 0 with threshold 1 over the rows (5, 0) and (0, 0) predicts (+1, -1); a copy whose `index` came out as 1 predicts (-1, -1) | copy `index` too | high (not executed) | WeakLearners.CopyStumpAsWrittenPredictsOtherwise | WeakLearners.CopyStumpIsFaithful |
| src/oracles/DecisionStump.cpp:164 | the scans read `data[index].index[indices.val[i]]` before testing for the sentinel `size_t(-1)` that argsort puts at an implicit zero | two examples with one stored value 1.0 at example 0: argsort yields the sentinel and the scan reads index `size_t(-1)` | test for the sentinel before reading the stored index (also at line 233) | high (not executed) | StumpOracle.WeightsAsWrittenReadsPastEnd | StumpOracle.WeightsAsWrittenAgrees |
| src/oracles/DecisionStump.cpp:49 | `ge` is assigned only when a row's edge beats the running maximum, which starts at -1, and is read at line 124 in any case | one example labelled -1 with all the weight, one row whose value there is 5: the only edge is -1, so `ge` is read uninitialised | initialise `ge` alongside the threshold and row it starts from | medium (not executed) | StumpOracle.GeReadUninitialised | StumpOracle.AsWrittenAgrees |
| src/oracles/Svm.cpp:84 | the transposed branch builds the prediction with the sparse `transpose_dot`, which stores every value under index 0, so labelling multiplies each by `labels[0]` (also at line 112) | transposed, one feature equal to 1 on two examples labelled +1 and -1, picking example 0: the prediction stands for (2, 0) instead of (1, -1) | store value k under index k | high (not executed) | SvmOracle.TransposedPredictionLosesIndices | SvmOracle.PredictionIsLabelledKernel |
| tools/ida_benchmark_to_libsvm_file_format.py:38 | the length check tests `is None`, which `readline()` never returns, so files of different lengths are merged | an empty data file and a label file holding "1": one line "+1" is written and the count is 1 | raise `Exception` when exactly one file is exhausted | high (not executed) | IdaConverter.MismatchNotCaught | IdaConverter.MergeCheckedAgrees |
