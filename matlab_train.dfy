/** The globals of the MATLAB `train` front end and the two routines that fill
    them in place: the option parser and the dense problem reader. Each is
    proved against its specification on values (`TrainOptions.Parse`,
    `DenseProblem.DenseLayout`). */
module MatlabTrain {
  import opened Values
  import opened TrainOptions
  import opened DenseProblem

  /** `F` is the element type of the single-precision sample matrix. */
  class Trainer<F(0)> {
    // Set by ParseCommandLine.
    var param: Parameter
    var crossValidationFlag: bool
    var colFormatFlag: bool
    var nrFold: int
    var bias: Double
    var printString: Printer
    var defaultPrintString: Option<Printer>
    // Set by ReadProblem: liblinear's `struct problem`; a row pointer
    // `prob.x[i]` is kept as its offset into `xSpace`.
    var probL: int
    var probN: int
    var probBias: Double
    var probY: array?<int>
    var probX: array?<nat>
    var xSpace: array?<F>

    /** The globals at program start: zero, NULL, and liblinear's own printer. */
    constructor ()
      ensures param == Parameter(0, Finite(0.0), Finite(0.0), 0, [], [])
      ensures !crossValidationFlag && !colFormatFlag && nrFold == 0 && bias == Finite(0.0)
      ensures printString == LibraryPrinter && defaultPrintString == None
      ensures probL == 0 && probN == 0 && probBias == Finite(0.0)
      ensures probY == null && probX == null && xSpace == null
    {
      param := Parameter(0, Finite(0.0), Finite(0.0), 0, [], []);
      crossValidationFlag, colFormatFlag, nrFold, bias := false, false, 0, Finite(0.0);
      printString, defaultPrintString := LibraryPrinter, None;
      probL, probN, probBias := 0, 0, Finite(0.0);
      probY, probX, xSpace := null, null, null;
    }

    /** The globals the option parser reads and writes. */
    function Current(): Settings
      reads this
    {
      Settings(param, crossValidationFlag, colFormatFlag, nrFold, bias, printString, defaultPrintString)
    }

    /** `parse_command_line`: `nrhs` MATLAB arguments, the fourth one `colArg`,
        the third one already split at spaces into `options`. Returns 0 when
        the command line is accepted and 1 when it is not. */
    method ParseCommandLine(nrhs: int, colArg: string, options: seq<string>, conv: Conversions)
      returns (status: int)
      modifies this`param, this`crossValidationFlag, this`colFormatFlag, this`nrFold, this`bias,
               this`printString, this`defaultPrintString
      ensures Parsed(status, Current()) == Parse(nrhs, colArg, options, conv, old(Current()))
    {
      param := Parameter(L2R_L2LOSS_SVC_DUAL, Finite(1.0), PosInf, 0, [], []);
      crossValidationFlag := false;
      colFormatFlag := false;
      bias := Finite(-1.0);

      if defaultPrintString.None? {
        defaultPrintString := Some(printString);
      } else {
        printString := defaultPrintString.value;
      }

      if nrhs <= 1 {
        return 1;
      }
      if nrhs >= 4 && colArg == "col" {
        colFormatFlag := true;
      }

      var argv: seq<string> := [];
      if nrhs > 2 {
        argv := options;
      }

      ghost var start := Current();
      var i := 0;
      while i < |argv|
        invariant 0 <= i <= |argv|
        invariant Scan(argv, i, Current(), conv) == Scan(argv, 0, start, conv)
      {
        if !IsOption(argv[i]) {
          break;
        }
        var rejected;
        i, rejected := ReadOption(argv, i, conv);
        if rejected {
          return 1;
        }
      }

      assert Scan(argv, i, Current(), conv) == Finished(Current());
      FillTolerance();
      return 0;
    }

    /** The default stopping tolerance of the chosen solver, filled in when
        no `-e` option set one. */
    method FillTolerance()
      modifies this`param
      ensures param == old(param).(eps := FillEps(old(param).solverType, old(param).eps))
    {
      if param.eps == PosInf {
        var solver := param.solverType;
        if solver == L2R_LR || solver == L2R_L2LOSS_SVC {
          param := param.(eps := Finite(0.01));
        } else if solver == L2R_L2LOSS_SVC_DUAL || solver == L2R_L1LOSS_SVC_DUAL || solver == MCSVM_CS {
          param := param.(eps := Finite(0.1));
        } else if solver == L1R_L2LOSS_SVC || solver == L1R_LR {
          param := param.(eps := Finite(0.01));
        }
      }
    }

    /** One pass of the option loop, on the option token at `i`: it takes the
        value token after it (except `-q`) and moves on past both, or it
        rejects the command line. */
    method ReadOption(argv: seq<string>, i: nat, conv: Conversions) returns (next: nat, rejected: bool)
      requires i < |argv| && IsOption(argv[i])
      modifies this`param, this`crossValidationFlag, this`nrFold, this`bias, this`printString
      ensures rejected ==> Scan(argv, i, old(Current()), conv) == Rejected(Current())
      ensures !rejected ==> i < next <= |argv|
                            && Scan(argv, i, old(Current()), conv) == Scan(argv, next, Current(), conv)
      ensures rejected <==> Bad(argv, i, conv)
      ensures !rejected ==> next == (if Letter(argv[i]) == 'q' then i + 1 else i + 2)
      ensures !rejected && Letter(argv[i]) == 'q' ==> Current() == old(Current()).(printer := NullPrinter)
      ensures !rejected && Letter(argv[i]) != 'q' ==>
                i + 1 < |argv| && Letter(argv[i]) in VALUE_LETTERS
                && Current() == Assign(argv[i], argv[i + 1], old(Current()), conv)
    {
      next := i + 1;
      var letter := Letter(argv[next - 1]);
      if next >= |argv| && letter != 'q' {
        return next, true;
      }
      if letter == 'q' {
        printString := NullPrinter;
        next := next - 1;
      } else if letter in VALUE_LETTERS {
        SetOption(argv[next - 1], argv[next], conv);
        if letter == 'v' && nrFold < 2 {
          return next, true;
        }
      } else {
        return next, true;
      }
      next := next + 1;
      rejected := false;
    }

    /** The cases of the option switch that take a value: `flag` is the
        option token and `value` the token after it. */
    method SetOption(flag: string, value: string, conv: Conversions)
      requires Letter(flag) in VALUE_LETTERS
      modifies this`param, this`crossValidationFlag, this`nrFold, this`bias
      ensures Current() == Assign(flag, value, old(Current()), conv)
    {
      var letter := Letter(flag);
      if letter == 's' {
        param := param.(solverType := conv.atoi(value));
      } else if letter == 'c' {
        param := param.(c := conv.atof(value));
      } else if letter == 'e' {
        param := param.(eps := conv.atof(value));
      } else if letter == 'B' {
        bias := conv.atof(value);
      } else if letter == 'v' {
        crossValidationFlag := true;
        nrFold := conv.atoi(value);
      } else {
        param := param.(nrWeight := param.nrWeight + 1);
        param := param.(weightLabel := param.weightLabel + [conv.atoi(flag[2..])]);
        param := param.(weight := param.weight + [conv.atof(value)]);
      }
    }

    /** `read_problem_sparse` in its dense build. The label vector has
        `labelRows` rows; the instance matrix is `rows` x `cols`, stored
        column-major in `samples`, and `isSingle` says whether MATLAB holds it
        in single precision. `narrow` is C's conversion of a double to float.
        Returns 0 on success and -1 when the label count does not match the
        instance count or the matrix is not single precision. */
    method ReadProblem(labelRows: nat, labels: array<real>, rows: nat, cols: nat, isSingle: bool,
                       samples: array<F>, narrow: Double -> F)
      returns (status: int)
      requires labelRows <= labels.Length
      requires samples.Length == rows * cols
      modifies this`probL, this`probN, this`probBias, this`probY, this`probX, this`xSpace
      ensures probL == if colFormatFlag then cols else rows
      ensures status == 0 || status == -1
      ensures status == -1 <==> labelRows != probL || !isSingle
      ensures status == -1 ==> probY == null && probX == null && xSpace == null
                               && probN == old(probN) && probBias == old(probBias)
      ensures status == 0 ==>
        var maxIndex := if colFormatFlag then rows else cols;
        var withBias := AtLeastZero(bias);
        && probY != null && probX != null && xSpace != null
        && fresh(probY) && fresh(probX) && fresh(xSpace)
        && probBias == bias
        && probN == Stride(maxIndex, withBias)
        && xSpace.Length == probL * probN
        && probY[..] == TruncateAll(labels[..labelRows])
        && probX[..] == RowOffsets(probL, probN)
        && xSpace[..] == DenseLayout(samples[..], probL, maxIndex, colFormatFlag,
                                     if withBias then Some(narrow(bias)) else None)
    {
      probX := null;
      probY := null;
      xSpace := null;

      if colFormatFlag {
        probL := cols;
      } else {
        probL := rows;
      }
      var labelVectorRowNum := labelRows;
      if labelVectorRowNum != probL {
        return -1;
      }
      if !isSingle {
        return -1;
      }

      ReadDense(labels, samples, rows, cols, narrow);
      return 0;
    }

    /** The dense branch of the reader, once the checks have passed: allocates
        the problem and copies the labels and the instances into it. */
    method ReadDense(labels: array<real>, samples: array<F>, rows: nat, cols: nat, narrow: Double -> F)
      requires probL == (if colFormatFlag then cols else rows) && probL <= labels.Length
      requires samples.Length == rows * cols
      modifies this`probN, this`probBias, this`probY, this`probX, this`xSpace
      ensures
        var maxIndex := if colFormatFlag then rows else cols;
        var withBias := AtLeastZero(bias);
        && probY != null && probX != null && xSpace != null
        && fresh(probY) && fresh(probX) && fresh(xSpace)
        && probBias == bias
        && probN == Stride(maxIndex, withBias)
        && xSpace.Length == probL * probN
        && probY[..] == TruncateAll(labels[..probL])
        && probX[..] == RowOffsets(probL, probN)
        && xSpace[..] == DenseLayout(samples[..], probL, maxIndex, colFormatFlag,
                                     if withBias then Some(narrow(bias)) else None)
    {
      var maxIndex: nat;
      if colFormatFlag {
        maxIndex := rows;
      } else {
        maxIndex := cols;
      }
      var elements: nat;
      var withBias := AtLeastZero(bias);
      if withBias {
        elements := (maxIndex + 1) * probL;
      } else {
        elements := maxIndex * probL;
      }
      ElementCount(maxIndex, probL, withBias);
      probBias := bias;
      var slot := if withBias then Some(narrow(probBias)) else None;
      MulComm(rows, cols);
      probY, probX, xSpace := FillProblem(labels, samples, probL, maxIndex, colFormatFlag, slot, elements);

      if withBias {
        probN := maxIndex + 1;
      } else {
        probN := maxIndex;
      }
      assert probN == Stride(maxIndex, withBias);
    }

    /** The allocations and the copy loop of the dense reader, for `l`
        instances of `maxIndex` features each, with `slot` the converted bias
        term when there is one. */
    static method FillProblem(labels: array<real>, samples: array<F>, l: nat, maxIndex: nat,
                              colFormat: bool, slot: Option<F>, elements: nat)
      returns (y: array<int>, x: array<nat>, space: array<F>)
      requires l <= labels.Length && samples.Length == l * maxIndex
      requires elements == l * Stride(maxIndex, slot.Some?)
      ensures fresh(y) && fresh(x) && fresh(space)
      ensures space.Length == elements
      ensures y[..] == TruncateAll(labels[..l])
      ensures x[..] == RowOffsets(l, Stride(maxIndex, slot.Some?))
      ensures space[..] == DenseLayout(samples[..], l, maxIndex, colFormat, slot)
    {
      y := new int[l];
      x := new nat[l];
      space := new F[elements];
      ghost var stride := Stride(maxIndex, slot.Some?);
      var xSpaceIdx: nat, sampleIdx: nat := 0, 0;
      var i := 0;
      while i < l
        modifies y, x, space
        invariant 0 <= i <= l
        invariant xSpaceIdx <= space.Length
        invariant colFormat ==> sampleIdx == i * maxIndex
        invariant space[..xSpaceIdx] == Layout(samples[..], l, maxIndex, colFormat, slot, i)
        invariant forall k :: 0 <= k < i ==> y[k] == TruncateToInt(labels[k])
        invariant forall k :: 0 <= k < i ==> x[k] == k * stride
      {
        x[i] := xSpaceIdx;
        y[i] := TruncateToInt(labels[i]);
        NextRow(i, l, stride);
        NextRow(i, l, maxIndex);
        assert xSpaceIdx == i * stride;
        xSpaceIdx, sampleIdx := CopyRow(space, xSpaceIdx, samples, sampleIdx, l, maxIndex, colFormat, slot, i);
        i := i + 1;
      }
      assert xSpaceIdx == l * stride;
      assert y[..] == y[..l] && x[..] == x[..l] && space[..] == space[..xSpaceIdx];
    }

    /** One pass of the outer copy loop: the features of instance `i` and, when
        `bias` is given, the bias term, written into `space` from `start` on.
        In column format the features are read on from `sampleIdx`. */
    static method CopyRow(space: array<F>, start: nat, samples: array<F>, sampleIdx: nat,
                          l: nat, maxIndex: nat, colFormat: bool, bias: Option<F>, i: nat)
      returns (next: nat, nextSample: nat)
      requires space != samples
      requires samples.Length == l * maxIndex && i < l
      requires colFormat ==> sampleIdx == i * maxIndex
      requires start + Stride(maxIndex, bias.Some?) <= space.Length
      modifies space
      ensures next == start + Stride(maxIndex, bias.Some?)
      ensures colFormat ==> nextSample == sampleIdx + maxIndex
      ensures space[..next] == old(space[..start]) + Row(samples[..], l, maxIndex, colFormat, bias, i)
    {
      ghost var row := Row(samples[..], l, maxIndex, colFormat, bias, i);
      next, nextSample := start, sampleIdx;
      var j := 0;
      while j < maxIndex
        invariant 0 <= j <= maxIndex
        invariant next == start + j
        invariant colFormat ==> nextSample == i * maxIndex + j
        invariant space[..next] == old(space[..start]) + row[..j]
      {
        ghost var before := space[..next];
        if colFormat {
          MulBound(l, maxIndex, i, j);
          space[next] := samples[nextSample];
          next, nextSample := next + 1, nextSample + 1;
        } else {
          MulBound(maxIndex, l, j, i);
          space[next] := samples[j * l + i];
          next := next + 1;
        }
        assert space[..next] == before + [row[j]];
        assert row[..j + 1] == row[..j] + [row[j]];
        j := j + 1;
      }
      if bias.Some? {
        ghost var before := space[..next];
        space[next] := bias.value;
        next := next + 1;
        assert space[..next] == before + [row[maxIndex]];
        assert row[..maxIndex + 1] == row[..maxIndex] + [row[maxIndex]];
      }
      assert row[..Stride(maxIndex, bias.Some?)] == row;
    }
  }
}
