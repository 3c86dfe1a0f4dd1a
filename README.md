# MATLAB `train` front end of liblinear 1.5 (dense float build)

This project models the sequential core of
`KernelDescriptor/liblinear-1.5-dense-float/matlab/train.c`. That file is the
MATLAB entry point that turns MATLAB arguments into liblinear's `struct
parameter` and `struct problem`. It has three parts.

* **`parse_command_line`.**
  - It resets the globals to their defaults and keeps the MATLAB printer
    remembered on the first call.
  - It sets column format when the fourth argument is `"col"`.
  - It walks the option tokens (`-s -c -e -B -v -w<label>` each take a value;
    `-q` takes none).
  - It rejects a missing value, an unknown letter and `-v n` with `n < 2`.
  - It fills in the solver's default tolerance when `-e` did not set one.
* **The dense branch of `read_problem_sparse`.**
  - It checks that the label count equals the instance count, and that the
    matrix is single precision.
  - It lays the column-major MATLAB matrix out as one flat buffer with one row
    of fixed stride per instance. A row holds the features, then the bias slot
    when `bias >= 0`.
  - It sets `prob.y`, the row pointers `prob.x`, `prob.bias` and `prob.n`.
* **The counting loop of `do_cross_validation`.** It counts the predictions
  equal to the true labels.

Module structure:

* `Values`: doubles (finite, ±infinity, NaN), C's truncating `(int)` cast, and
  `atoi`/`atof`, which are passed in as given functions.
* `TrainOptions`: the specification of the parser on values, and what is
  proved about it.
  - `Scan` is the option loop; `Parse` is the whole routine.
  - `Flags`, `LastValue`, `HasFlag`, `Bad`, `WeightLabels` and `WeightValues`
    describe the token list independently of the loop.
  - The lemmas tie the loop to these descriptions.
* `DenseProblem`: the specification of the flat buffer.
  - `Layout` and `DenseLayout` give the buffer; `LayoutAt` gives it slot by
    slot.
  - `RowFormatIsTransposedColumnFormat` relates row format to the
    transposition at train.c:241-260, which the source leaves commented out;
    `TransposeAt` shows that `Transpose` is a transposition.
* `CrossValidation`: the hit count, as a function and as the loop over arrays.
* `MatlabTrain`: class `Trainer` holds the C globals as fields (`param`,
  `cross_validation_flag`, `col_format_flag`, `nr_fold`, `bias`, the printer
  pointers, `prob`, `x_space`). Its methods mirror the C code step by step on
  those fields, and are proved equal to `Parse` and `DenseLayout`.

Other modelling choices:

* `INF` (`HUGE_VAL`) is `PosInf`. So an explicit `-e inf` cannot be told from
  "no `-e`", just as in the C code.
* `nr_fold` is not reset by the defaults. It keeps its value from the previous
  call unless `-v` is given.
* Sample values have an opaque element type `F`, since they are only copied.
  The float conversion of the double bias is a given function `narrow`.
* A row pointer `prob.x[i]` is its offset into `x_space`.

## Model

| member | source | states |
|---|---|---|
| `Values.AtLeastZero` | KernelDescriptor/liblinear-1.5-dense-float/matlab/train.c:294 | the definition of C's `bias >= 0` on a double (true for +inf, false for -inf and NaN); `ReadProblem` and `ReadDense` use it for the bias slot and `n` |
| `Values.TruncateAll` | KernelDescriptor/liblinear-1.5-dense-float/matlab/train.c:312-315 | the definition of `prob.y`, every label cast by `TruncateToInt`; `ReadDense` and `ReadProblem` prove `prob.y` equal to it |
| `Values.TruncateToInt` | KernelDescriptor/liblinear-1.5-dense-float/matlab/train.c:315 | the label cast drops the fraction: the result is the integer next to the label on the side of zero, within distance less than 1 |
| `TrainOptions.IsOption` | KernelDescriptor/liblinear-1.5-dense-float/matlab/train.c:153 | the definition of the loop's test `argv[i][0] == '-'`; `Flags` states that every position read as an option passes it and `WalkEnd` that the walk stops at one that does not |
| `TrainOptions.ArgTokens` | KernelDescriptor/liblinear-1.5-dense-float/matlab/train.c:142-148 | the definition of the tokens walked: the split third argument when `nrhs > 2`, none otherwise; `ParseDefaults` states the result when there are none |
| `TrainOptions.Letter` | KernelDescriptor/liblinear-1.5-dense-float/matlab/train.c:155-157 | the definition of the option letter `argv[i-1][1]`, which is the terminating NUL for a bare `-`; `UnknownOptionRejected` states that such a token is rejected |
| `TrainOptions.Reset` | KernelDescriptor/liblinear-1.5-dense-float/matlab/train.c:114-129 | the definition of the defaults (everything but `nr_fold`) and of the printer remembered on the first call; `ParseDefaults`, `ParseTooFewArguments` and `ParsePrinter` state its effect |
| `TrainOptions.Assign` | KernelDescriptor/liblinear-1.5-dense-float/matlab/train.c:157-186 | the definition of one value-taking case of the switch; `FoldOption` and `WeightOption` state its `-v` and `-w` cases, `ScanLastWins` the others |
| `TrainOptions.Scan` | KernelDescriptor/liblinear-1.5-dense-float/matlab/train.c:150-195 | the definition of the option loop; `ScanFrame`, `ScanRejectedIff`, `ScanLastWins`, `ScanSwitches`, `ScanWeightLabels`, `ScanWeightCount`, `ScanWeightValues` and `ScanSplit` tie it to the token descriptions `Flags`, `Bad`, `LastValue` and `WeightLabels` |
| `TrainOptions.FillEps` | KernelDescriptor/liblinear-1.5-dense-float/matlab/train.c:197-205 | the definition of the tolerance chosen after the loop; `ParseEps` compares it with the independent table of `DefaultTolerance` |
| `TrainOptions.Parse` | KernelDescriptor/liblinear-1.5-dense-float/matlab/train.c:108-207 | the definition of the whole parser; the `Parse*` lemmas state its status, column flag, values, tolerance, cross-validation settings and printer |
| `TrainOptions.Finish` | KernelDescriptor/liblinear-1.5-dense-float/matlab/train.c:196-206 | the definition of the parser's end: status 1 for a rejected loop, otherwise status 0 with the tolerance filled in; `ParseStatus` and `ParseEps` state its effect |
| `TrainOptions.Flags` | KernelDescriptor/liblinear-1.5-dense-float/matlab/train.c:151-156 | every position the loop reads as an option lies in the token list and starts with '-' |
| `TrainOptions.WalkEnd` | KernelDescriptor/liblinear-1.5-dense-float/matlab/train.c:151-153 | the loop stops at or past the end, or at a token that does not start with '-' |
| `TrainOptions.ScanFrame` | KernelDescriptor/liblinear-1.5-dense-float/matlab/train.c:150-195 | the option loop never changes the column-format flag or the remembered printer, keeps earlier weight pairs, and keeps `nr_weight` equal to the length of both weight arrays |
| `TrainOptions.ScanRejectedIff` | KernelDescriptor/liblinear-1.5-dense-float/matlab/train.c:150-195 | the loop returns failure exactly when an option it reads lacks its value, has an unknown letter, or is `-v` with fewer than 2 folds |
| `TrainOptions.ScanLastWins` | KernelDescriptor/liblinear-1.5-dense-float/matlab/train.c:159-179 | after an accepted loop, solver, C, eps, bias and `nr_fold` hold the value of the last option with their letter, or their value on entry |
| `TrainOptions.ScanSwitches` | KernelDescriptor/liblinear-1.5-dense-float/matlab/train.c:171-172 | after an accepted loop, cross validation is on exactly when it was on or a `-v` occurred; the printer is the silent one exactly when a `-q` occurred or it already was |
| `TrainOptions.ScanWeightLabels` | KernelDescriptor/liblinear-1.5-dense-float/matlab/train.c:180-186 | the label array gains exactly the labels of the `-w` options, in order |
| `TrainOptions.ScanWeightCount` | KernelDescriptor/liblinear-1.5-dense-float/matlab/train.c:180-186 | `nr_weight` grows by the number of `-w` options |
| `TrainOptions.ScanWeightValues` | KernelDescriptor/liblinear-1.5-dense-float/matlab/train.c:180-186 | the weight array gains exactly the values of the `-w` options, in order |
| `TrainOptions.ScanSplit` | KernelDescriptor/liblinear-1.5-dense-float/matlab/train.c:150-195 | tokens after a fully read prefix cannot change how the prefix was read |
| `TrainOptions.StopsAtNonOption` | KernelDescriptor/liblinear-1.5-dense-float/matlab/train.c:153 | parsing stops at the first token read as an option that does not start with '-'; everything after it is ignored |
| `TrainOptions.MissingValueRejected` | KernelDescriptor/liblinear-1.5-dense-float/matlab/train.c:154-156 | an option other than `-q` given as the last token is rejected |
| `TrainOptions.UnknownOptionRejected` | KernelDescriptor/liblinear-1.5-dense-float/matlab/train.c:191-193 | an option letter outside `s c e B v w q` is rejected |
| `TrainOptions.QuietTakesNoValue` | KernelDescriptor/liblinear-1.5-dense-float/matlab/train.c:187-190 | `-q` silences the printer and the next token is read as an option |
| `TrainOptions.FoldOption` | KernelDescriptor/liblinear-1.5-dense-float/matlab/train.c:171-179 | `-v n` rejects when n < 2, otherwise sets cross validation and `nr_fold = n` |
| `TrainOptions.WeightOption` | KernelDescriptor/liblinear-1.5-dense-float/matlab/train.c:180-186 | `-wL v` appends exactly the pair (L, v) and increments `nr_weight` |
| `TrainOptions.ParseTooFewArguments` | KernelDescriptor/liblinear-1.5-dense-float/matlab/train.c:114-132 | with fewer than two MATLAB arguments the result is failure, with the globals at their defaults |
| `TrainOptions.ParseDefaults` | KernelDescriptor/liblinear-1.5-dense-float/matlab/train.c:114-123 | without option tokens: success, solver 1, C = 1, eps = 0.1, no weights, no cross validation, bias -1, `nr_fold` as before |
| `TrainOptions.ParseStatus` | KernelDescriptor/liblinear-1.5-dense-float/matlab/train.c:131-206 | the status is 1 exactly when there are fewer than two arguments or a bad option is read, and 0 otherwise |
| `TrainOptions.ParseColFormat` | KernelDescriptor/liblinear-1.5-dense-float/matlab/train.c:134-139 | column format is on exactly when there are at least four arguments and the fourth is "col" |
| `TrainOptions.ParseEps` | KernelDescriptor/liblinear-1.5-dense-float/matlab/train.c:197-205 | on success eps is the last `-e` value unless it is +inf; otherwise 0.01 for solvers 0, 2, 5, 6, 0.1 for 1, 3, 4, and +inf for any other solver |
| `TrainOptions.ParseValues` | KernelDescriptor/liblinear-1.5-dense-float/matlab/train.c:159-186 | on success solver, C and bias are the last given (or the defaults), and the weight arrays list the `-w` pairs in order, with `nr_weight` their length |
| `TrainOptions.ParseCrossValidation` | KernelDescriptor/liblinear-1.5-dense-float/matlab/train.c:171-179 | on success cross validation is on exactly when `-v` occurred; then `nr_fold` is the last `-v` value and at least 2; otherwise `nr_fold` keeps its old value |
| `TrainOptions.LastValueIsFlag` | KernelDescriptor/liblinear-1.5-dense-float/matlab/train.c:157-158 | a last value for a letter comes from an option with that letter, and there is none exactly when no such option has a value |
| `TrainOptions.ParsePrinter` | KernelDescriptor/liblinear-1.5-dense-float/matlab/train.c:125-129 | the printer remembered on the first call is kept; on success the printer is the silent one exactly when `-q` was given, and the remembered one otherwise |
| `DenseProblem.Stride` | KernelDescriptor/liblinear-1.5-dense-float/matlab/train.c:294-297 | the definition of the row stride, `max_index + 1` with a bias slot and `max_index` without; `ReadDense` proves `prob.n` equal to it (train.c:371-374) and `ElementCount` that `elements` is `l` strides |
| `DenseProblem.RowOffsets` | KernelDescriptor/liblinear-1.5-dense-float/matlab/train.c:314 | the definition of the row pointers `prob.x[i]` as offsets `i * stride`; `RowAtOffset` states what each points at and `ReadDense` proves `prob.x` equal to it |
| `DenseProblem.Transpose` | KernelDescriptor/liblinear-1.5-dense-float/matlab/train.c:241-260 | the definition of the commented-out transposition in column-major storage; `TransposeAt` states that it is one and `RowFormatIsTransposedColumnFormat` relates it to row format |
| `DenseProblem.Feature` | KernelDescriptor/liblinear-1.5-dense-float/matlab/train.c:318-324 | the definition of feature `j` of instance `i`: `samples[i*max_index + j]` in column format, `samples[j*l + i]` in row format; `LayoutAt` states where it lands in the buffer |
| `DenseProblem.Row` | KernelDescriptor/liblinear-1.5-dense-float/matlab/train.c:316-328 | the definition of one instance's row: its features, then the bias when there is one; `CopyRow` writes it and `RowAtOffset` finds it at the row's offset |
| `DenseProblem.DenseLayout` | KernelDescriptor/liblinear-1.5-dense-float/matlab/train.c:312-329 | the definition of the whole buffer as the rows of all instances in order; `LayoutAt` states it slot by slot and `ReadDense` proves `x_space` equal to it |
| `DenseProblem.Layout` | KernelDescriptor/liblinear-1.5-dense-float/matlab/train.c:312-329 | the rows of the first `count` instances fill exactly `count * stride` slots |
| `DenseProblem.RowAtOffset` | KernelDescriptor/liblinear-1.5-dense-float/matlab/train.c:314-328 | the pointer `prob.x[i]`, offset `i * stride`, points at instance `i`'s row: the `stride` slots from there lie inside the buffer and are exactly that row |
| `DenseProblem.LayoutAt` | KernelDescriptor/liblinear-1.5-dense-float/matlab/train.c:294-329 | the buffer holds `elements` slots; slot `i*stride + j` is `samples[i*max_index + j]` in column format and `samples[j*l + i]` in row format; slot `i*stride + max_index` is the bias |
| `DenseProblem.TransposeAt` | KernelDescriptor/liblinear-1.5-dense-float/matlab/train.c:241-260 | `Transpose` is the transpose: entry (r, c) of the result, at `r*cols + c`, is entry (c, r) of the matrix, at `c*rows + r` |
| `DenseProblem.RowFormatIsTransposedColumnFormat` | KernelDescriptor/liblinear-1.5-dense-float/matlab/train.c:241-260 | reading in row format gives the same buffer as reading the transposed matrix in column format, so the in-place indexing replaces the commented-out transposition (in exact arithmetic; the 32-bit overflow of row format is under Left out) |
| `CrossValidation.Hits` | KernelDescriptor/liblinear-1.5-dense-float/matlab/train.c:97-99 | the number of correct predictions is at most `l` |
| `CrossValidation.HitsCountsMatches` | KernelDescriptor/liblinear-1.5-dense-float/matlab/train.c:97-99 | the count is the size of the set of indices with `target[i] == y[i]` |
| `CrossValidation.AllHitIff` | KernelDescriptor/liblinear-1.5-dense-float/matlab/train.c:97-99 | the count is `l` exactly when every prediction is right |
| `CrossValidation.NoneHitIff` | KernelDescriptor/liblinear-1.5-dense-float/matlab/train.c:97-99 | the count is 0 exactly when every prediction is wrong |
| `CrossValidation.TotalCorrect` | KernelDescriptor/liblinear-1.5-dense-float/matlab/train.c:90-99 | the loop returns `Hits(target, y)`, between 0 and `l` |
| `MatlabTrain.Trainer.constructor` | KernelDescriptor/liblinear-1.5-dense-float/matlab/train.c:72-86 | the globals start zeroed and NULL, with liblinear's own printer |
| `MatlabTrain.Trainer.ParseCommandLine` | KernelDescriptor/liblinear-1.5-dense-float/matlab/train.c:108-207 | the returned status and the new globals are exactly `Parse` of the arguments and the old globals |
| `MatlabTrain.Trainer.FillTolerance` | KernelDescriptor/liblinear-1.5-dense-float/matlab/train.c:197-205 | eps is replaced by the solver's default exactly when it is still the +inf sentinel; nothing else changes |
| `MatlabTrain.Trainer.ReadOption` | KernelDescriptor/liblinear-1.5-dense-float/matlab/train.c:153-194 | one pass of the loop rejects exactly when the option at `i` is `Bad`, and then `Scan` rejects there with the same state; otherwise it moves past `-q` alone, installing the silent printer, or past the option and its value, changing the globals exactly as `Assign`, and `Scan` from the new position gives the same result |
| `MatlabTrain.Trainer.SetOption` | KernelDescriptor/liblinear-1.5-dense-float/matlab/train.c:157-186 | the value-taking cases of the switch change the globals exactly as `Assign` |
| `MatlabTrain.Trainer.ReadProblem` | KernelDescriptor/liblinear-1.5-dense-float/matlab/train.c:214-378 | `l` is the column count in column format and the row count otherwise; the result is -1 exactly when the label count differs from `l` or the matrix is not single precision, leaving `prob.x`, `prob.y`, `x_space` NULL; otherwise 0 with the postcondition of `ReadDense` |
| `MatlabTrain.Trainer.ReadDense` | KernelDescriptor/liblinear-1.5-dense-float/matlab/train.c:287-374 | new `prob.y` is the truncated labels, `prob.x[i] = i * n`, `x_space` is `DenseLayout` with `l * n` slots, `prob.bias = bias`, and `n = max_index + 1` when `bias >= 0`, else `max_index` |
| `MatlabTrain.Trainer.FillProblem` | KernelDescriptor/liblinear-1.5-dense-float/matlab/train.c:305-329 | the allocations hold `elements` slots and the copy loop leaves the labels, the row offsets and the flat buffer exactly as specified |
| `MatlabTrain.Trainer.CopyRow` | KernelDescriptor/liblinear-1.5-dense-float/matlab/train.c:316-328 | one pass of the outer loop appends exactly instance `i`'s row (features, then the bias slot) after the rows already written |

## Left out

- MATLAB plumbing is not modelled. This covers `mxGetString`, `mxGetM`/`mxGetN`, `mxIsSingle`, `mexPrintf`, `mexCallMATLAB` and the `mexFunction` dispatch at train.c:382-497. The parser takes the argument count, the fourth argument as a string and the third already split into tokens; the reader takes the dimensions and the single-precision test as parameters.
- `strtok` splitting at train.c:145-147 is not modelled, and neither are the `CMD_LEN` limits: the 2048-character `cmd` buffer (which receives the third and the fourth argument, train.c:111, 136, 144) and the 1024-entry token array `argv[CMD_LEN/2]` (train.c:112). Very long option strings, which overflow those buffers in C, are outside the model.
- `atoi` and `atof` are given functions of a token, and the float conversion of the bias is a given function. Their results are not modelled.
- The liblinear library (`train`, `cross_validation`, `check_parameter`, `destroy_param`, `model_to_matlab_structure`) is not modelled: `linear.h` is not part of this model. `CrossValidation.TotalCorrect` takes the predictions as an argument.
- The accuracy percentage at train.c:100-101 is not modelled, because it is floating-point output.
- `malloc`, `realloc` and `free` are not modelled. The buffers are fresh Dafny arrays, and the weight arrays are sequences that grow by one.
- The non-dense `#else` branch at train.c:335-369 is not modelled: it uses `instance_mat_col`, which is never declared.
- The `DEBUG` busy-wait `wait` at train.c:14-19 is not modelled, because it is timing only.
- The casts `(int) mxGetM(...)` and `(int) mxGetN(...)` and the `int` results of `atoi` are not modelled as 32-bit. Dimensions are unbounded naturals, and all index arithmetic is exact.
- `MatlabTrain.Trainer.ReadDense` computes the row-format index `j*label_vector_row_num + i` (train.c:322) exactly. In C it is 32-bit `int` arithmetic, which overflows once `l * max_index` exceeds `INT_MAX` (say l = 100000, max_index = 30000). Column format walks the `size_t` counter `sample_idx` (train.c:310, 319) and does not overflow. So the model's row-format layout, and `RowFormatIsTransposedColumnFormat`, describe the C code only when `l * max_index <= INT_MAX`.
- `MatlabTrain.Trainer.ReadProblem` takes the labels as finite reals, so NaN and infinite labels are outside the model. `(int)labels[i]` (train.c:315) is undefined in C for a label outside the `int` range; the model truncates every finite label to an unbounded integer, so it describes the C code only for labels between `INT_MIN` and `INT_MAX`.
- `MatlabTrain.Trainer.ReadProblem` requires that the label vector holds at least `labelRows` values. This excludes an M×0 label array: `mxGetM` of it is M, and `mexFunction` checks only `mxIsDouble` (train.c:396), so C accepts it at train.c:268-270 and then reads `labels[i]` past its end at train.c:315. That out-of-bounds read is not modelled.
- `RGBDObjSegmentation/RGBDObjSegmentation/GrabCutter.h` is not modelled: it declares the segmentation engine but contains no function bodies.
