/** The option parser of the MATLAB `train` entry point, as a specification on
    values: the defaults, the walk over the option tokens, and the tolerance
    chosen when `-e` is not given. The class `MatlabTrain.Trainer` runs the same
    walk imperatively on its fields and is proved equal to `Parse`. */
module TrainOptions {
  import opened Values

  // Solver types of liblinear 1.5, numbered as in the usage text.
  const L2R_LR := 0
  const L2R_L2LOSS_SVC_DUAL := 1
  const L2R_L2LOSS_SVC := 2
  const L2R_L1LOSS_SVC_DUAL := 3
  const MCSVM_CS := 4
  const L1R_L2LOSS_SVC := 5
  const L1R_LR := 6

  /** The option letters that take a value token. */
  const VALUE_LETTERS := "sceBvw"

  /** Where liblinear sends its messages: its own printer, or the silent one
      installed by `-q`. */
  datatype Printer = LibraryPrinter | NullPrinter

  /** liblinear's `struct parameter`: weight labels and weights are the two
      arrays grown by `-w`, `nrWeight` their common length. */
  datatype Parameter = Parameter(solverType: int, c: Double, eps: Double,
                                 nrWeight: int, weightLabel: seq<int>, weight: seq<Double>)

  /** Every global the parser reads or writes. `savedPrinter` is the printer
      remembered by the first call (`None` before it). */
  datatype Settings = Settings(param: Parameter, crossValidation: bool, colFormat: bool,
                               nrFold: int, bias: Double,
                               printer: Printer, savedPrinter: Option<Printer>)

  /** The option walk either runs off the tokens (or stops at a non-option)
      or rejects the command line; either way it leaves its state behind. */
  datatype ScanResult = Finished(settings: Settings) | Rejected(settings: Settings)

  /** The parser's return code (0 accepted, 1 rejected) and the globals it leaves. */
  datatype Parsed = Parsed(status: int, settings: Settings)

  const DEFAULT_PARAMETER := Parameter(L2R_L2LOSS_SVC_DUAL, Finite(1.0), PosInf, 0, [], [])

  /** A token is read as an option when its first character is '-'. */
  predicate IsOption(t: string)
  {
    |t| > 0 && t[0] == '-'
  }

  /** The option letter, the character after '-'; C reads the terminating NUL
      when the token is just "-". */
  function Letter(t: string): char
  {
    if |t| >= 2 then t[1] else '\0'
  }

  /** The front matter of the parser: defaults for everything except `nrFold`,
      and the printer reset to the one remembered at the first call. */
  function Reset(before: Settings): Settings
  {
    var saved := if before.savedPrinter.None? then Some(before.printer) else before.savedPrinter;
    Settings(DEFAULT_PARAMETER, false, false, before.nrFold, Finite(-1.0), saved.value, saved)
  }

  /** The tokens the walk sees: those of the third MATLAB argument, if given. */
  function ArgTokens(nrhs: int, options: seq<string>): seq<string>
  {
    if nrhs > 2 then options else []
  }

  /** The effect of one option `flag value` (a letter in VALUE_LETTERS). */
  function Assign(flag: string, value: string, s: Settings, conv: Conversions): Settings
    requires Letter(flag) in VALUE_LETTERS
  {
    var letter := Letter(flag);
    if letter == 's' then s.(param := s.param.(solverType := conv.atoi(value)))
    else if letter == 'c' then s.(param := s.param.(c := conv.atof(value)))
    else if letter == 'e' then s.(param := s.param.(eps := conv.atof(value)))
    else if letter == 'B' then s.(bias := conv.atof(value))
    else if letter == 'v' then s.(crossValidation := true, nrFold := conv.atoi(value))
    else
      s.(param := s.param.(nrWeight := s.param.nrWeight + 1,
                           weightLabel := s.param.weightLabel + [conv.atoi(flag[2..])],
                           weight := s.param.weight + [conv.atof(value)]))
  }

  /** The option walk from token `i` on. */
  function Scan(tokens: seq<string>, i: nat, s: Settings, conv: Conversions): ScanResult
    decreases |tokens| - i
  {
    if i >= |tokens| || !IsOption(tokens[i]) then Finished(s)
    else if Letter(tokens[i]) == 'q' then Scan(tokens, i + 1, s.(printer := NullPrinter), conv)
    else if i + 1 >= |tokens| || Letter(tokens[i]) !in VALUE_LETTERS then Rejected(s)
    else
      var next := Assign(tokens[i], tokens[i + 1], s, conv);
      if Letter(tokens[i]) == 'v' && next.nrFold < 2 then Rejected(next)
      else Scan(tokens, i + 2, next, conv)
  }

  /** The tolerance filled in after the walk when `eps` still holds the sentinel. */
  function FillEps(solverType: int, eps: Double): Double
  {
    if eps != PosInf then eps
    else if solverType == L2R_LR || solverType == L2R_L2LOSS_SVC then Finite(0.01)
    else if solverType == L2R_L2LOSS_SVC_DUAL || solverType == L2R_L1LOSS_SVC_DUAL
         || solverType == MCSVM_CS then Finite(0.1)
    else if solverType == L1R_L2LOSS_SVC || solverType == L1R_LR then Finite(0.01)
    else eps
  }

  /** The whole parser: `nrhs` MATLAB arguments, the fourth one `colArg`, the
      third one split into `options`; `before` are the globals on entry. */
  function Parse(nrhs: int, colArg: string, options: seq<string>, conv: Conversions,
                 before: Settings): Parsed
  {
    var reset := Reset(before);
    if nrhs <= 1 then Parsed(1, reset)
    else
      var start := reset.(colFormat := nrhs >= 4 && colArg == "col");
      Finish(Scan(ArgTokens(nrhs, options), 0, start, conv))
  }

  /** The end of the parser: a rejected walk gives status 1, an accepted one
      status 0 with the default tolerance filled in. */
  function Finish(outcome: ScanResult): Parsed
  {
    match outcome
    case Rejected(s) => Parsed(1, s)
    case Finished(s) => Parsed(0, s.(param := s.param.(eps := FillEps(s.param.solverType, s.param.eps))))
  }

  // ---------------------------------------------------------------------
  // Reference descriptions of the walk, independent of the settings

  /** The positions the walk would read as options if no option rejected, in
      order: an option is followed by its value, except `-q`, which stands
      alone. */
  function Flags(tokens: seq<string>, i: nat): (ps: seq<nat>)
    ensures forall k :: k in ps ==> i <= k < |tokens| && IsOption(tokens[k])
    decreases |tokens| - i
  {
    if i >= |tokens| || !IsOption(tokens[i]) then []
    else [i] + Flags(tokens, if Letter(tokens[i]) == 'q' then i + 1 else i + 2)
  }

  /** Where the walk from `i` leaves the tokens: at a token that is not an
      option, or at or past the end. */
  function WalkEnd(tokens: seq<string>, i: nat): (e: nat)
    ensures i <= e
    ensures e < |tokens| ==> !IsOption(tokens[e])
    decreases |tokens| - i
  {
    if i >= |tokens| || !IsOption(tokens[i]) then i
    else WalkEnd(tokens, if Letter(tokens[i]) == 'q' then i + 1 else i + 2)
  }

  /** The option at position `k` makes the parser give up: it lacks its value,
      its letter is unknown, or it is `-v` with fewer than two folds. */
  predicate Bad(tokens: seq<string>, k: nat, conv: Conversions)
  {
    k < |tokens| &&
    var letter := Letter(tokens[k]);
    || (letter != 'q' && k + 1 >= |tokens|)
    || (letter != 'q' && letter !in VALUE_LETTERS)
    || (letter == 'v' && k + 1 < |tokens| && conv.atoi(tokens[k + 1]) < 2)
  }

  predicate AnyBad(tokens: seq<string>, ps: seq<nat>, conv: Conversions)
  {
    exists k :: k in ps && Bad(tokens, k, conv)
  }

  predicate HasFlag(tokens: seq<string>, ps: seq<nat>, letter: char)
  {
    exists k :: k in ps && k < |tokens| && Letter(tokens[k]) == letter
  }

  /** The value token of the last option with this letter among `ps`. */
  function LastValue(tokens: seq<string>, ps: seq<nat>, letter: char): Option<string>
  {
    if ps == [] then None
    else
      var later := LastValue(tokens, ps[1..], letter);
      if later.Some? then later
      else if ps[0] + 1 < |tokens| && Letter(tokens[ps[0]]) == letter then Some(tokens[ps[0] + 1])
      else None
  }

  function ValueOr<T>(o: Option<string>, convert: string -> T, default: T): T
  {
    if o.Some? then convert(o.value) else default
  }

  /** The labels of the `-w<label>` options among `ps`, in order. */
  function WeightLabels(tokens: seq<string>, ps: seq<nat>, conv: Conversions): seq<int>
  {
    if ps == [] then []
    else
      (if ps[0] + 1 < |tokens| && Letter(tokens[ps[0]]) == 'w'
       then [conv.atoi(tokens[ps[0]][2..])] else [])
      + WeightLabels(tokens, ps[1..], conv)
  }

  /** The weights of the `-w<label>` options among `ps`, in order. */
  function WeightValues(tokens: seq<string>, ps: seq<nat>, conv: Conversions): seq<Double>
  {
    if ps == [] then []
    else
      (if ps[0] + 1 < |tokens| && Letter(tokens[ps[0]]) == 'w'
       then [conv.atof(tokens[ps[0] + 1])] else [])
      + WeightValues(tokens, ps[1..], conv)
  }

  /** The tolerance the usage text promises for each solver when `-e` is absent. */
  function DefaultTolerance(solverType: int): Double
  {
    if solverType in {L2R_LR, L2R_L2LOSS_SVC, L1R_L2LOSS_SVC, L1R_LR} then Finite(0.01)
    else if solverType in {L2R_L2LOSS_SVC_DUAL, L2R_L1LOSS_SVC_DUAL, MCSVM_CS} then Finite(0.1)
    else PosInf
  }

  predicate WeightsConsistent(p: Parameter)
  {
    p.nrWeight == |p.weightLabel| == |p.weight|
  }

  // ---------------------------------------------------------------------
  // Helper facts about the reference descriptions

  lemma AnyBadCons(tokens: seq<string>, i: nat, rest: seq<nat>, conv: Conversions)
    ensures AnyBad(tokens, [i] + rest, conv) <==> Bad(tokens, i, conv) || AnyBad(tokens, rest, conv)
  {
    if AnyBad(tokens, [i] + rest, conv) {
      var k :| k in [i] + rest && Bad(tokens, k, conv);
      if k != i { assert k in rest; }
    }
    if AnyBad(tokens, rest, conv) {
      var k :| k in rest && Bad(tokens, k, conv);
      assert k in [i] + rest;
    }
    if Bad(tokens, i, conv) { assert i in [i] + rest; }
  }

  lemma HasFlagCons(tokens: seq<string>, i: nat, rest: seq<nat>, letter: char)
    ensures HasFlag(tokens, [i] + rest, letter)
        <==> (i < |tokens| && Letter(tokens[i]) == letter) || HasFlag(tokens, rest, letter)
  {
    if HasFlag(tokens, [i] + rest, letter) {
      var k :| k in [i] + rest && k < |tokens| && Letter(tokens[k]) == letter;
      if k != i { assert k in rest; }
    }
    if HasFlag(tokens, rest, letter) {
      var k :| k in rest && k < |tokens| && Letter(tokens[k]) == letter;
      assert k in [i] + rest;
    }
    if i < |tokens| && Letter(tokens[i]) == letter { assert i in [i] + rest; }
  }

  // ---------------------------------------------------------------------
  // Properties of the walk

  /** The walk never touches the column-format flag or the remembered
      printer, keeps the earlier weight pairs in order, and keeps the weight
      count equal to the length of both weight arrays. */
  lemma {:induction false} ScanFrame(tokens: seq<string>, i: nat, s: Settings, conv: Conversions)
    ensures var r := Scan(tokens, i, s, conv).settings;
      && r.colFormat == s.colFormat
      && r.savedPrinter == s.savedPrinter
      && s.param.weightLabel <= r.param.weightLabel
      && s.param.weight <= r.param.weight
      && (WeightsConsistent(s.param) ==> WeightsConsistent(r.param))
    decreases |tokens| - i
  {
    if i >= |tokens| || !IsOption(tokens[i]) {
    } else if Letter(tokens[i]) == 'q' {
      ScanFrame(tokens, i + 1, s.(printer := NullPrinter), conv);
    } else if i + 1 >= |tokens| || Letter(tokens[i]) !in VALUE_LETTERS {
    } else {
      var next := Assign(tokens[i], tokens[i + 1], s, conv);
      if Letter(tokens[i]) == 'v' && next.nrFold < 2 {
      } else {
        ScanFrame(tokens, i + 2, next, conv);
      }
    }
  }

  /** The walk rejects exactly when one of the options it reads is bad. */
  lemma {:induction false} ScanRejectedIff(tokens: seq<string>, i: nat, s: Settings, conv: Conversions)
    ensures Scan(tokens, i, s, conv).Rejected? <==> AnyBad(tokens, Flags(tokens, i), conv)
    decreases |tokens| - i
  {
    if i >= |tokens| || !IsOption(tokens[i]) {
    } else {
      var n := if Letter(tokens[i]) == 'q' then i + 1 else i + 2;
      assert Flags(tokens, i) == [i] + Flags(tokens, n);
      AnyBadCons(tokens, i, Flags(tokens, n), conv);
      if Letter(tokens[i]) == 'q' {
        ScanRejectedIff(tokens, n, s.(printer := NullPrinter), conv);
      } else if i + 1 >= |tokens| || Letter(tokens[i]) !in VALUE_LETTERS {
        assert Bad(tokens, i, conv);
      } else {
        var next := Assign(tokens[i], tokens[i + 1], s, conv);
        if Letter(tokens[i]) == 'v' && next.nrFold < 2 {
          assert Bad(tokens, i, conv);
        } else {
          assert !Bad(tokens, i, conv);
          ScanRejectedIff(tokens, n, next, conv);
        }
      }
    }
  }

  lemma LastValueCons(tokens: seq<string>, i: nat, rest: seq<nat>, letter: char)
    ensures LastValue(tokens, [i] + rest, letter)
         == if LastValue(tokens, rest, letter).Some? then LastValue(tokens, rest, letter)
            else if i + 1 < |tokens| && Letter(tokens[i]) == letter then Some(tokens[i + 1])
            else None
  {
    assert ([i] + rest)[1..] == rest;
  }

  lemma WeightsCons(tokens: seq<string>, i: nat, rest: seq<nat>, conv: Conversions)
    ensures WeightLabels(tokens, [i] + rest, conv)
         == (if i + 1 < |tokens| && Letter(tokens[i]) == 'w' then [conv.atoi(tokens[i][2..])] else [])
            + WeightLabels(tokens, rest, conv)
    ensures WeightValues(tokens, [i] + rest, conv)
         == (if i + 1 < |tokens| && Letter(tokens[i]) == 'w' then [conv.atof(tokens[i + 1])] else [])
            + WeightValues(tokens, rest, conv)
  {
    assert ([i] + rest)[1..] == rest;
  }

  /** When the walk is accepted, every field set by an option with a value
      holds the value of the LAST such option, or its value on entry. */
  lemma {:induction false} ScanLastWins(tokens: seq<string>, i: nat, s: Settings, conv: Conversions)
    requires Scan(tokens, i, s, conv).Finished?
    ensures var r := Scan(tokens, i, s, conv).settings;
      var ps := Flags(tokens, i);
      && r.param.solverType == ValueOr(LastValue(tokens, ps, 's'), conv.atoi, s.param.solverType)
      && r.param.c == ValueOr(LastValue(tokens, ps, 'c'), conv.atof, s.param.c)
      && r.param.eps == ValueOr(LastValue(tokens, ps, 'e'), conv.atof, s.param.eps)
      && r.bias == ValueOr(LastValue(tokens, ps, 'B'), conv.atof, s.bias)
      && r.nrFold == ValueOr(LastValue(tokens, ps, 'v'), conv.atoi, s.nrFold)
    decreases |tokens| - i
  {
    if i < |tokens| && IsOption(tokens[i]) {
      var n := if Letter(tokens[i]) == 'q' then i + 1 else i + 2;
      var rest := Flags(tokens, n);
      LastValueCons(tokens, i, rest, 's');
      LastValueCons(tokens, i, rest, 'c');
      LastValueCons(tokens, i, rest, 'e');
      LastValueCons(tokens, i, rest, 'B');
      LastValueCons(tokens, i, rest, 'v');
      if Letter(tokens[i]) == 'q' {
        ScanLastWins(tokens, n, s.(printer := NullPrinter), conv);
      } else {
        ScanLastWins(tokens, n, Assign(tokens[i], tokens[i + 1], s, conv), conv);
      }
    }
  }

  /** When the walk is accepted, cross validation is on exactly when it was
      on before or a `-v` option occurs, and the printer is the silent one
      exactly when a `-q` option occurs (or it already was). */
  lemma {:induction false} ScanSwitches(tokens: seq<string>, i: nat, s: Settings, conv: Conversions)
    requires Scan(tokens, i, s, conv).Finished?
    ensures var r := Scan(tokens, i, s, conv).settings;
      var ps := Flags(tokens, i);
      && r.crossValidation == (s.crossValidation || HasFlag(tokens, ps, 'v'))
      && r.printer == (if HasFlag(tokens, ps, 'q') then NullPrinter else s.printer)
    decreases |tokens| - i
  {
    if i < |tokens| && IsOption(tokens[i]) {
      var n := if Letter(tokens[i]) == 'q' then i + 1 else i + 2;
      var rest := Flags(tokens, n);
      HasFlagCons(tokens, i, rest, 'v');
      HasFlagCons(tokens, i, rest, 'q');
      if Letter(tokens[i]) == 'q' {
        ScanSwitches(tokens, n, s.(printer := NullPrinter), conv);
      } else {
        ScanSwitches(tokens, n, Assign(tokens[i], tokens[i + 1], s, conv), conv);
      }
    }
  }

  /** One accepted step of the walk: an option at `i` moves the walk on by
      one token (`-q`) or two (an option and its value). */
  lemma ScanStep(tokens: seq<string>, i: nat, s: Settings, conv: Conversions)
    requires i < |tokens| && IsOption(tokens[i])
    requires Scan(tokens, i, s, conv).Finished?
    ensures Letter(tokens[i]) != 'q' ==> i + 1 < |tokens| && Letter(tokens[i]) in VALUE_LETTERS
    ensures var n := if Letter(tokens[i]) == 'q' then i + 1 else i + 2;
      var next := if Letter(tokens[i]) == 'q' then s.(printer := NullPrinter)
                  else Assign(tokens[i], tokens[i + 1], s, conv);
      Scan(tokens, i, s, conv) == Scan(tokens, n, next, conv)
  {
  }

  lemma AssignWeights(flag: string, value: string, s: Settings, conv: Conversions)
    requires Letter(flag) in VALUE_LETTERS
    ensures var next := Assign(flag, value, s, conv);
      var added := if Letter(flag) == 'w' then 1 else 0;
      && next.param.nrWeight == s.param.nrWeight + added
      && next.param.weightLabel == s.param.weightLabel + (if Letter(flag) == 'w' then [conv.atoi(flag[2..])] else [])
      && next.param.weight == s.param.weight + (if Letter(flag) == 'w' then [conv.atof(value)] else [])
  {
  }

  /** When the walk is accepted, the label array gains exactly the labels of
      the `-w<label>` options, in the order given. */
  lemma {:induction false} ScanWeightLabels(tokens: seq<string>, i: nat, s: Settings, conv: Conversions)
    requires Scan(tokens, i, s, conv).Finished?
    ensures Scan(tokens, i, s, conv).settings.param.weightLabel
            == s.param.weightLabel + WeightLabels(tokens, Flags(tokens, i), conv)
    decreases |tokens| - i
  {
    if i < |tokens| && IsOption(tokens[i]) {
      var n := if Letter(tokens[i]) == 'q' then i + 1 else i + 2;
      var rest := Flags(tokens, n);
      assert Flags(tokens, i) == [i] + rest;
      WeightsCons(tokens, i, rest, conv);
      ScanStep(tokens, i, s, conv);
      if Letter(tokens[i]) == 'q' {
        ScanWeightLabels(tokens, n, s.(printer := NullPrinter), conv);
      } else {
        AssignWeights(tokens[i], tokens[i + 1], s, conv);
        ScanWeightLabels(tokens, n, Assign(tokens[i], tokens[i + 1], s, conv), conv);
      }
    }
  }

  /** When the walk is accepted, `nrWeight` grows by the number of `-w`
      options. */
  lemma {:induction false} ScanWeightCount(tokens: seq<string>, i: nat, s: Settings, conv: Conversions)
    requires Scan(tokens, i, s, conv).Finished?
    ensures Scan(tokens, i, s, conv).settings.param.nrWeight
            == s.param.nrWeight + |WeightLabels(tokens, Flags(tokens, i), conv)|
    decreases |tokens| - i
  {
    if i < |tokens| && IsOption(tokens[i]) {
      var n := if Letter(tokens[i]) == 'q' then i + 1 else i + 2;
      var rest := Flags(tokens, n);
      assert Flags(tokens, i) == [i] + rest;
      WeightsCons(tokens, i, rest, conv);
      ScanStep(tokens, i, s, conv);
      if Letter(tokens[i]) == 'q' {
        ScanWeightCount(tokens, n, s.(printer := NullPrinter), conv);
      } else {
        AssignWeights(tokens[i], tokens[i + 1], s, conv);
        ScanWeightCount(tokens, n, Assign(tokens[i], tokens[i + 1], s, conv), conv);
      }
    }
  }

  /** When the walk is accepted, the weight array gains exactly the values of
      the `-w` options, in the order given. */
  lemma {:induction false} ScanWeightValues(tokens: seq<string>, i: nat, s: Settings, conv: Conversions)
    requires Scan(tokens, i, s, conv).Finished?
    ensures Scan(tokens, i, s, conv).settings.param.weight
            == s.param.weight + WeightValues(tokens, Flags(tokens, i), conv)
    decreases |tokens| - i
  {
    if i < |tokens| && IsOption(tokens[i]) {
      var n := if Letter(tokens[i]) == 'q' then i + 1 else i + 2;
      var rest := Flags(tokens, n);
      assert Flags(tokens, i) == [i] + rest;
      WeightsCons(tokens, i, rest, conv);
      ScanStep(tokens, i, s, conv);
      if Letter(tokens[i]) == 'q' {
        ScanWeightValues(tokens, n, s.(printer := NullPrinter), conv);
      } else {
        AssignWeights(tokens[i], tokens[i + 1], s, conv);
        ScanWeightValues(tokens, n, Assign(tokens[i], tokens[i + 1], s, conv), conv);
      }
    }
  }

  /** When the walk of `p` from `i` ends exactly at the end of `p`, the walk of
      `p + q` is the walk of `p` followed by a walk of `q`: tokens after `p`
      cannot change how `p` was read. */
  lemma {:induction false} ScanSplit(p: seq<string>, q: seq<string>, i: nat, s: Settings, conv: Conversions)
    requires WalkEnd(p, i) == |p|
    ensures Scan(p + q, i, s, conv) == match Scan(p, i, s, conv)
                                       case Rejected(r) => Rejected(r)
                                       case Finished(r) => Scan(p + q, |p|, r, conv)
    decreases |p| - i
  {
    if i < |p| {
      assert (p + q)[i] == p[i];
      if Letter(p[i]) == 'q' {
        ScanSplit(p, q, i + 1, s.(printer := NullPrinter), conv);
      } else if i + 1 < |p| {
        assert (p + q)[i + 1] == p[i + 1];
        if Letter(p[i]) in VALUE_LETTERS {
          var next := Assign(p[i], p[i + 1], s, conv);
          if !(Letter(p[i]) == 'v' && next.nrFold < 2) {
            ScanSplit(p, q, i + 2, next, conv);
          }
        }
      }
    }
  }

  /** Parsing stops at the first token that is not an option: whatever
      follows it is ignored. */
  lemma StopsAtNonOption(p: seq<string>, t: string, rest: seq<string>, s: Settings, conv: Conversions)
    requires WalkEnd(p, 0) == |p|
    requires !IsOption(t)
    ensures Scan(p + [t] + rest, 0, s, conv) == Scan(p, 0, s, conv)
  {
    assert p + [t] + rest == p + ([t] + rest);
    ScanSplit(p, [t] + rest, 0, s, conv);
    assert (p + [t] + rest)[|p|] == t;
  }

  /** An option other than `-q` that is the last token has no value: rejected. */
  lemma MissingValueRejected(p: seq<string>, t: string, s: Settings, conv: Conversions)
    requires WalkEnd(p, 0) == |p|
    requires IsOption(t) && Letter(t) != 'q'
    ensures Scan(p + [t], 0, s, conv).Rejected?
  {
    ScanSplit(p, [t], 0, s, conv);
    assert (p + [t])[|p|] == t;
  }

  /** An option letter the parser does not know is rejected. */
  lemma UnknownOptionRejected(p: seq<string>, t: string, rest: seq<string>, s: Settings, conv: Conversions)
    requires WalkEnd(p, 0) == |p|
    requires IsOption(t) && Letter(t) !in "sceBvwq"
    ensures Scan(p + [t] + rest, 0, s, conv).Rejected?
  {
    assert p + [t] + rest == p + ([t] + rest);
    ScanSplit(p, [t] + rest, 0, s, conv);
    assert (p + [t] + rest)[|p|] == t;
  }

  /** `-q` takes no value: it silences the printer and the very next token is
      read as an option. */
  lemma QuietTakesNoValue(p: seq<string>, t: string, rest: seq<string>, s: Settings, conv: Conversions)
    requires WalkEnd(p, 0) == |p|
    requires IsOption(t) && Letter(t) == 'q'
    ensures Scan(p + [t] + rest, 0, s, conv)
         == match Scan(p, 0, s, conv)
            case Rejected(r) => Rejected(r)
            case Finished(r) => Scan(p + [t] + rest, |p| + 1, r.(printer := NullPrinter), conv)
  {
    assert p + [t] + rest == p + ([t] + rest);
    ScanSplit(p, [t] + rest, 0, s, conv);
    assert (p + [t] + rest)[|p|] == t;
  }

  /** `-v n` turns cross validation on with `n` folds, and rejects when n < 2
      (after having set both). */
  lemma FoldOption(p: seq<string>, t: string, v: string, rest: seq<string>, s: Settings, conv: Conversions)
    requires WalkEnd(p, 0) == |p|
    requires IsOption(t) && Letter(t) == 'v'
    ensures conv.atoi(v) < 2 ==> Scan(p + [t, v] + rest, 0, s, conv).Rejected?
    ensures conv.atoi(v) >= 2 ==>
      Scan(p + [t, v] + rest, 0, s, conv)
      == match Scan(p, 0, s, conv)
         case Rejected(r) => Rejected(r)
         case Finished(r) => Scan(p + [t, v] + rest, |p| + 2,
                                  r.(crossValidation := true, nrFold := conv.atoi(v)), conv)
  {
    assert p + [t, v] + rest == p + ([t, v] + rest);
    ScanSplit(p, [t, v] + rest, 0, s, conv);
    assert (p + [t, v] + rest)[|p|] == t;
    assert (p + [t, v] + rest)[|p| + 1] == v;
  }

  /** `-w<label> value` appends exactly one pair (label, value) to the weight
      arrays and keeps the earlier pairs. */
  lemma WeightOption(p: seq<string>, t: string, v: string, rest: seq<string>, s: Settings, conv: Conversions)
    requires WalkEnd(p, 0) == |p|
    requires IsOption(t) && Letter(t) == 'w'
    ensures Scan(p + [t, v] + rest, 0, s, conv)
         == match Scan(p, 0, s, conv)
            case Rejected(r) => Rejected(r)
            case Finished(r) =>
              Scan(p + [t, v] + rest, |p| + 2,
                   r.(param := r.param.(nrWeight := r.param.nrWeight + 1,
                                        weightLabel := r.param.weightLabel + [conv.atoi(t[2..])],
                                        weight := r.param.weight + [conv.atof(v)])), conv)
  {
    assert p + [t, v] + rest == p + ([t, v] + rest);
    ScanSplit(p, [t, v] + rest, 0, s, conv);
    assert (p + [t, v] + rest)[|p|] == t;
    assert (p + [t, v] + rest)[|p| + 1] == v;
  }

  // ---------------------------------------------------------------------
  // Properties of the whole parser

  /** Fewer than two MATLAB arguments: failure, with the globals at their defaults. */
  lemma ParseTooFewArguments(nrhs: int, colArg: string, options: seq<string>, conv: Conversions,
                             before: Settings)
    requires nrhs <= 1
    ensures Parse(nrhs, colArg, options, conv, before) == Parsed(1, Reset(before))
    ensures !Reset(before).colFormat && Reset(before).param.solverType == L2R_L2LOSS_SVC_DUAL
  {
  }

  /** No option tokens: success with the documented defaults (solver 1, C = 1,
      tolerance 0.1, no weights, no cross validation, bias -1). */
  lemma ParseDefaults(nrhs: int, colArg: string, options: seq<string>, conv: Conversions,
                      before: Settings)
    requires nrhs >= 2 && ArgTokens(nrhs, options) == []
    ensures var r := Parse(nrhs, colArg, options, conv, before);
      && r.status == 0
      && r.settings.param == Parameter(L2R_L2LOSS_SVC_DUAL, Finite(1.0), Finite(0.1), 0, [], [])
      && !r.settings.crossValidation
      && r.settings.bias == Finite(-1.0)
      && r.settings.nrFold == before.nrFold
      && r.settings.colFormat == (nrhs >= 4 && colArg == "col")
  {
  }

  /** The status is 0 or 1, and 1 exactly when there are fewer than two
      arguments or one of the options read is bad. */
  lemma ParseStatus(nrhs: int, colArg: string, options: seq<string>, conv: Conversions,
                    before: Settings)
    ensures var argv := ArgTokens(nrhs, options);
      Parse(nrhs, colArg, options, conv, before).status
      == if nrhs <= 1 || AnyBad(argv, Flags(argv, 0), conv) then 1 else 0
  {
    if nrhs > 1 {
      var start := Reset(before).(colFormat := nrhs >= 4 && colArg == "col");
      ScanRejectedIff(ArgTokens(nrhs, options), 0, start, conv);
    }
  }

  /** Column format is on exactly when there are at least four arguments and
      the fourth is "col". */
  lemma ParseColFormat(nrhs: int, colArg: string, options: seq<string>, conv: Conversions,
                       before: Settings)
    ensures Parse(nrhs, colArg, options, conv, before).settings.colFormat
            <==> nrhs >= 4 && colArg == "col"
  {
    if nrhs > 1 {
      var start := Reset(before).(colFormat := nrhs >= 4 && colArg == "col");
      ScanFrame(ArgTokens(nrhs, options), 0, start, conv);
    }
  }

  /** On success the tolerance is the last explicit `-e` value unless that
      value is +inf (the sentinel); otherwise it is 0.01 for solvers 0, 2, 5
      and 6, 0.1 for solvers 1, 3 and 4, and stays +inf for any other solver. */
  lemma ParseEps(nrhs: int, colArg: string, options: seq<string>, conv: Conversions,
                 before: Settings)
    requires Parse(nrhs, colArg, options, conv, before).status == 0
    ensures var r := Parse(nrhs, colArg, options, conv, before).settings;
      var argv := ArgTokens(nrhs, options);
      var e := LastValue(argv, Flags(argv, 0), 'e');
      r.param.eps == if e.Some? && conv.atof(e.value) != PosInf then conv.atof(e.value)
                     else DefaultTolerance(r.param.solverType)
  {
    var start := Reset(before).(colFormat := nrhs >= 4 && colArg == "col");
    ScanLastWins(ArgTokens(nrhs, options), 0, start, conv);
  }

  /** On success the solver, C and bias are those of the last `-s`, `-c`,
      `-B` option or the defaults, and the weight arrays list the `-w`
      pairs in the order given, their count in `nrWeight`. */
  lemma ParseValues(nrhs: int, colArg: string, options: seq<string>, conv: Conversions,
                    before: Settings)
    requires Parse(nrhs, colArg, options, conv, before).status == 0
    ensures var r := Parse(nrhs, colArg, options, conv, before).settings;
      var argv := ArgTokens(nrhs, options);
      var ps := Flags(argv, 0);
      && r.param.solverType == ValueOr(LastValue(argv, ps, 's'), conv.atoi, L2R_L2LOSS_SVC_DUAL)
      && r.param.c == ValueOr(LastValue(argv, ps, 'c'), conv.atof, Finite(1.0))
      && r.bias == ValueOr(LastValue(argv, ps, 'B'), conv.atof, Finite(-1.0))
      && r.param.weightLabel == WeightLabels(argv, ps, conv)
      && r.param.weight == WeightValues(argv, ps, conv)
      && r.param.nrWeight == |r.param.weightLabel| == |r.param.weight|
  {
    var start := Reset(before).(colFormat := nrhs >= 4 && colArg == "col");
    ScanLastWins(ArgTokens(nrhs, options), 0, start, conv);
    ScanWeightLabels(ArgTokens(nrhs, options), 0, start, conv);
    ScanWeightValues(ArgTokens(nrhs, options), 0, start, conv);
    ScanFrame(ArgTokens(nrhs, options), 0, start, conv);
  }

  /** On success cross validation is on exactly when a `-v` option was given,
      and then `nrFold` is the last `-v` value, at least 2; without `-v` the
      fold count keeps the value it had before the call. */
  lemma ParseCrossValidation(nrhs: int, colArg: string, options: seq<string>, conv: Conversions,
                             before: Settings)
    requires Parse(nrhs, colArg, options, conv, before).status == 0
    ensures var r := Parse(nrhs, colArg, options, conv, before).settings;
      var argv := ArgTokens(nrhs, options);
      var ps := Flags(argv, 0);
      && (r.crossValidation <==> HasFlag(argv, ps, 'v'))
      && (r.crossValidation ==> LastValue(argv, ps, 'v').Some? && r.nrFold >= 2
                                && r.nrFold == conv.atoi(LastValue(argv, ps, 'v').value))
      && (!r.crossValidation ==> r.nrFold == before.nrFold)
  {
    var argv := ArgTokens(nrhs, options);
    var start := Reset(before).(colFormat := nrhs >= 4 && colArg == "col");
    ScanLastWins(argv, 0, start, conv);
    ScanSwitches(argv, 0, start, conv);
    ScanRejectedIff(argv, 0, start, conv);
    var ps := Flags(argv, 0);
    var k := LastValueIsFlag(argv, ps, 'v');
    if HasFlag(argv, ps, 'v') {
      var j :| j in ps && j < |argv| && Letter(argv[j]) == 'v';
      assert !Bad(argv, j, conv);
      assert LastValue(argv, ps, 'v').Some?;
      assert !Bad(argv, k, conv);
    }
  }

  /** The last value of a letter comes from an option with that letter, and
      there is one exactly when such an option with a value occurs. */
  lemma {:induction false} LastValueIsFlag(tokens: seq<string>, ps: seq<nat>, letter: char) returns (k: nat)
    ensures LastValue(tokens, ps, letter).Some? ==>
      k in ps && k + 1 < |tokens| && Letter(tokens[k]) == letter
      && LastValue(tokens, ps, letter).value == tokens[k + 1]
    ensures LastValue(tokens, ps, letter).None? ==>
      forall j :: j in ps && j + 1 < |tokens| ==> Letter(tokens[j]) != letter
  {
    k := 0;
    if ps != [] {
      var inner := LastValueIsFlag(tokens, ps[1..], letter);
      if LastValue(tokens, ps[1..], letter).Some? {
        k := inner;
      } else {
        k := ps[0];
      }
      forall j | j in ps && j != ps[0] ensures j in ps[1..] {
        assert ps == [ps[0]] + ps[1..];
      }
    }
  }

  /** The printer remembered by the first call is kept for good; on success
      the current printer is the silent one exactly when `-q` was given, and
      the remembered one otherwise, so `-q` does not outlive its call. */
  lemma ParsePrinter(nrhs: int, colArg: string, options: seq<string>, conv: Conversions,
                     before: Settings)
    ensures var r := Parse(nrhs, colArg, options, conv, before);
      var argv := ArgTokens(nrhs, options);
      && r.settings.savedPrinter == (if before.savedPrinter.None? then Some(before.printer)
                                     else before.savedPrinter)
      && (r.status == 0 ==>
           r.settings.printer == if HasFlag(argv, Flags(argv, 0), 'q') then NullPrinter
                                 else r.settings.savedPrinter.value)
  {
    if nrhs > 1 {
      var start := Reset(before).(colFormat := nrhs >= 4 && colArg == "col");
      ScanFrame(ArgTokens(nrhs, options), 0, start, conv);
      if Scan(ArgTokens(nrhs, options), 0, start, conv).Finished? {
        ScanSwitches(ArgTokens(nrhs, options), 0, start, conv);
      }
    }
  }
}
