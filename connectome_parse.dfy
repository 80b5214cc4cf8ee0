/** Parse and validate: `preprocess` in preprocess_data/preprocess_connectome.py.
    The file arrives as its lines, each already stripped and split at commas;
    the first line is the header. Python's int() and float() are not part of
    this model: they are passed in as `Numbers`, each answering None where
    Python raises ValueError. */
module ConnectomeParse {
  import opened Edges

  /** One line of the input file, split at commas. */
  type Line = seq<string>

  /** The conversions the source applies to a field: int() and float(). */
  datatype Numbers = Numbers(toInt: string -> Option<int>, toFloat: string -> Option<real>)

  /** The parsed edge table and the feature rows aligned with it. */
  datatype Parsed = Parsed(table: Table, feats: Matrix)

  /** A data line every field of which converts: at least the four fields
      u, i, ts, label, all of the rest features. */
  predicate WellFormed(e: Line, num: Numbers)
  {
    |e| >= 4 && num.toInt(e[0]).Some? && num.toInt(e[1]).Some?
    && num.toFloat(e[2]).Some? && num.toFloat(e[3]).Some?
    && forall j :: 4 <= j < |e| ==> num.toFloat(e[j]).Some?
  }

  /** Field j of a line converts: int() for the two node ids, float() for
      the timestamp, the label and the features. */
  predicate FieldConverts(e: Line, j: nat, num: Numbers)
    requires j < |e|
  {
    if j < 2 then num.toInt(e[j]).Some? else num.toFloat(e[j]).Some?
  }

  /** The source's assertion fires on this line: fields 0 to 2 convert and
      the timestamp is below the running previous time. */
  predicate OutOfOrder(e: Line, prev: real, num: Numbers)
  {
    |e| >= 3 && num.toInt(e[0]).Some? && num.toInt(e[1]).Some? && num.toFloat(e[2]).Some?
    && num.toFloat(e[2]).value < prev
  }

  /** The timestamp of a well-formed line. */
  function TimeOf(e: Line, num: Numbers): real
    requires WellFormed(e, num)
  {
    num.toFloat(e[2]).value
  }

  /** The table row of the well-formed data line number k: fields 0 to 3 and
      the line's position among the data lines. */
  function EdgeOf(e: Line, k: nat, num: Numbers): Edge
    requires WellFormed(e, num)
  {
    Edge(num.toInt(e[0]).value, num.toInt(e[1]).value, TimeOf(e, num), num.toFloat(e[3]).value, k)
  }

  /** The feature row of a well-formed line: fields 4 to the end. */
  function FeaturesOf(e: Line, num: Numbers): seq<real>
    requires WellFormed(e, num)
  {
    seq(|e| - 4, j requires 0 <= j < |e| - 4 => num.toFloat(e[j + 4]).value)
  }

  predicate AllWellFormed(lines: seq<Line>, num: Numbers)
  {
    forall k :: 0 <= k < |lines| ==> WellFormed(lines[k], num)
  }

  /** The order the source asserts: the first timestamp is at least -1, the
      running start value, and no timestamp is below the one before it. */
  predicate InTimeOrder(lines: seq<Line>, num: Numbers)
    requires AllWellFormed(lines, num)
  {
    (|lines| > 0 ==> TimeOf(lines[0], num) >= -1.0)
    && forall k :: 0 < k < |lines| ==> TimeOf(lines[k - 1], num) <= TimeOf(lines[k], num)
  }

  /** The list comprehension over the feature fields: every value, or the
      position of the first field float() rejects. */
  function ParseFeatures(fs: seq<string>, toFloat: string -> Option<real>): (r: Result<seq<real>, nat>)
    ensures r.Success? <==> forall j :: 0 <= j < |fs| ==> toFloat(fs[j]).Some?
    ensures r.Success? ==> |r.value| == |fs| && forall j :: 0 <= j < |fs| ==> r.value[j] == toFloat(fs[j]).value
    ensures r.Failure? ==> r.error < |fs| && toFloat(fs[r.error]).None?
                           && forall j :: 0 <= j < r.error ==> toFloat(fs[j]).Some?
  {
    if fs == [] then Success([])
    else match toFloat(fs[0])
      case None => Failure(0)
      case Some(x) =>
        match ParseFeatures(fs[1..], toFloat)
        case Failure(j) => Failure(j + 1)
        case Success(xs) => Success([x] + xs)
  }

  /** The body of the source's loop for data line k, with `prev` the running
      previous time: the fields in the order the source reads them, the
      timestamp check between field 2 and field 3. */
  function ParseLine(e: Line, k: nat, prev: real, num: Numbers): (r: Result<(Edge, seq<real>), Fault>)
    ensures r.Success? <==> WellFormed(e, num) && TimeOf(e, num) >= prev
    ensures r.Success? ==> r.value == (EdgeOf(e, k, num), FeaturesOf(e, num))
    ensures r.Failure? ==> (r.error.MissingField? || r.error.NotANumber? || r.error.TemporalOrderViolation?)
                           && r.error.line == k
    ensures r.Failure? && WellFormed(e, num) ==> r.error == TemporalOrderViolation(k)
    ensures r.Failure? ==> (r.error.TemporalOrderViolation? <==> OutOfOrder(e, prev, num))
    ensures r.Failure? && r.error.MissingField? ==>
              r.error.field == |e| < 4 && forall j :: 0 <= j < |e| ==> FieldConverts(e, j, num)
    ensures r.Failure? && r.error.NotANumber? ==>
              r.error.field < |e| && !FieldConverts(e, r.error.field, num)
              && forall j :: 0 <= j < r.error.field ==> FieldConverts(e, j, num)
  {
    if |e| <= 0 then Failure(MissingField(k, 0))
    else if num.toInt(e[0]).None? then Failure(NotANumber(k, 0))
    else if |e| <= 1 then Failure(MissingField(k, 1))
    else if num.toInt(e[1]).None? then Failure(NotANumber(k, 1))
    else if |e| <= 2 then Failure(MissingField(k, 2))
    else if num.toFloat(e[2]).None? then Failure(NotANumber(k, 2))
    else if num.toFloat(e[2]).value < prev then Failure(TemporalOrderViolation(k))
    else if |e| <= 3 then Failure(MissingField(k, 3))
    else if num.toFloat(e[3]).None? then Failure(NotANumber(k, 3))
    else match ParseFeatures(e[4..], num.toFloat)
      case Failure(j) =>
        assert forall m :: 4 <= m < j + 4 ==> FieldConverts(e, m, num) by {
          forall m | 4 <= m < j + 4 ensures FieldConverts(e, m, num) {
            assert e[4..][m - 4] == e[m];
          }
        }
        assert e[4..][j] == e[j + 4];
        Failure(NotANumber(k, j + 4))
      case Success(feat) =>
        assert forall j :: 4 <= j < |e| ==> num.toFloat(e[j]).Some? by {
          forall j | 4 <= j < |e| ensures num.toFloat(e[j]).Some? {
            assert e[4..][j - 4] == e[j];
          }
        }
        assert feat == FeaturesOf(e, num);
        Success((Edge(num.toInt(e[0]).value, num.toInt(e[1]).value, num.toFloat(e[2]).value,
                      num.toFloat(e[3]).value, k), feat))
  }

  /** The loop from data line k on, with the running previous time and the
      rows collected so far. */
  function Run(lines: seq<Line>, k: nat, prev: real, acc: Parsed, num: Numbers): Result<Parsed, Fault>
    requires k <= |lines|
    decreases |lines| - k
  {
    if k == |lines| then Success(acc)
    else match ParseLine(lines[k], k, prev, num)
      case Failure(f) => Failure(f)
      case Success((edge, feat)) =>
        Run(lines, k + 1, edge.ts, Parsed(acc.table + [edge], acc.feats + [feat]), num)
  }

  /** What `preprocess` returns for a file: the header skipped, the loop run
      from previous time -1, and the feature rows stacked into one matrix. */
  function Preprocessed(file: seq<Line>, num: Numbers): (r: Result<Parsed, Fault>)
    ensures r.Success? ==> |file| > 0 && |r.value.table| == |file| - 1 && |r.value.feats| == |file| - 1
                           && Rectangular(r.value.feats)
  {
    if |file| == 0 then Failure(EmptyFile)
    else
      var run := Run(file[1..], 0, -1.0, Parsed([], []), num);
      if run.Failure? then Failure(run.error)
      else
        RunRows(file[1..], 0, -1.0, Parsed([], []), num);
        if Rectangular(run.value.feats) then Success(run.value) else Failure(RaggedFeatures)
  }

  /** The table built from the five column lists. */
  function Frame(us: seq<int>, vs: seq<int>, tss: seq<real>, labels: seq<real>, idxs: seq<int>): (t: Table)
    requires |vs| == |us| && |tss| == |us| && |labels| == |us| && |idxs| == |us|
  {
    seq(|us|, k requires 0 <= k < |us| => Edge(us[k], vs[k], tss[k], labels[k], idxs[k]))
  }

  /** The source's loop: six lists appended to, one running previous time. */
  method Preprocess(file: seq<Line>, num: Numbers) returns (res: Result<Parsed, Fault>)
    ensures res == Preprocessed(file, num)
  {
    if |file| == 0 {
      return Failure(EmptyFile);
    }
    var lines := file[1..];
    var uList, iList, idxList: seq<int> := [], [], [];
    var tsList, labelList: seq<real> := [], [];
    var featList: Matrix := [];
    var previousTime: real := -1.0;
    var idx := 0;
    assert Frame(uList, iList, tsList, labelList, idxList) == [];
    while idx < |lines|
      invariant idx <= |lines|
      invariant |iList| == |uList| && |tsList| == |uList| && |labelList| == |uList| && |idxList| == |uList|
      invariant Run(lines, idx, previousTime, Parsed(Frame(uList, iList, tsList, labelList, idxList), featList), num)
                == Run(lines, 0, -1.0, Parsed([], []), num)
    {
      var step := ParseLine(lines[idx], idx, previousTime, num);
      if step.Failure? {
        return Failure(step.error);
      }
      var (edge, feat) := step.value;
      previousTime := edge.ts;
      assert Frame(uList + [edge.u], iList + [edge.i], tsList + [edge.ts], labelList + [edge.stateLabel], idxList + [edge.idx])
          == Frame(uList, iList, tsList, labelList, idxList) + [edge];
      uList, iList, tsList := uList + [edge.u], iList + [edge.i], tsList + [edge.ts];
      labelList, idxList := labelList + [edge.stateLabel], idxList + [edge.idx];
      featList := featList + [feat];
      idx := idx + 1;
    }
    var parsed := Parsed(Frame(uList, iList, tsList, labelList, idxList), featList);
    if !Rectangular(featList) {
      return Failure(RaggedFeatures);
    }
    res := Success(parsed);
  }

  /** The loop from line k on succeeds exactly when every remaining line is
      well formed and its timestamps never go below the running value. */
  lemma {:induction false} RunSucceedsIff(lines: seq<Line>, k: nat, prev: real, acc: Parsed, num: Numbers)
    requires k <= |lines|
    ensures Run(lines, k, prev, acc, num).Success?
            <==> (forall j :: k <= j < |lines| ==> WellFormed(lines[j], num))
                 && (k < |lines| ==> TimeOf(lines[k], num) >= prev)
                 && (forall j :: k < j < |lines| ==> TimeOf(lines[j - 1], num) <= TimeOf(lines[j], num))
    decreases |lines| - k
  {
    if k < |lines| {
      var step := ParseLine(lines[k], k, prev, num);
      if step.Success? {
        var (edge, feat) := step.value;
        RunSucceedsIff(lines, k + 1, edge.ts, Parsed(acc.table + [edge], acc.feats + [feat]), num);
      }
    }
  }

  /** On success the loop from line k has appended exactly one row per
      remaining line, in order, to what was collected before. */
  lemma {:induction false} RunRows(lines: seq<Line>, k: nat, prev: real, acc: Parsed, num: Numbers)
    requires k <= |lines|
    requires Run(lines, k, prev, acc, num).Success?
    ensures var p := Run(lines, k, prev, acc, num).value;
            |p.table| == |acc.table| + |lines| - k && |p.feats| == |acc.feats| + |lines| - k
            && p.table[..|acc.table|] == acc.table && p.feats[..|acc.feats|] == acc.feats
            && (forall j :: k <= j < |lines| ==>
                  WellFormed(lines[j], num)
                  && p.table[|acc.table| + j - k] == EdgeOf(lines[j], j, num)
                  && p.feats[|acc.feats| + j - k] == FeaturesOf(lines[j], num))
    decreases |lines| - k
  {
    if k < |lines| {
      var (edge, feat) := ParseLine(lines[k], k, prev, num).value;
      var acc' := Parsed(acc.table + [edge], acc.feats + [feat]);
      RunRows(lines, k + 1, edge.ts, acc', num);
      var p := Run(lines, k, prev, acc, num).value;
      assert p.table[..|acc.table|] == p.table[..|acc'.table|][..|acc.table|];
      assert p.feats[..|acc.feats|] == p.feats[..|acc'.feats|][..|acc.feats|];
    }
  }

  /** The running previous time when the loop, started at line j with
      running value prev, reaches line k: the timestamp of line k - 1. */
  function PrevTime(lines: seq<Line>, j: nat, k: nat, prev: real, num: Numbers): real
    requires j <= k <= |lines|
    requires forall m :: j <= m < k ==> WellFormed(lines[m], num)
  {
    if k == j then prev else TimeOf(lines[k - 1], num)
  }

  /** The loop stops at the first line it cannot take, with that line's
      fault: when lines j to k - 1 are well formed and in order and line k
      fails, the loop from j fails exactly as line k does. */
  lemma {:induction false} RunStopsAt(lines: seq<Line>, j: nat, k: nat, prev: real, acc: Parsed, num: Numbers)
    requires j <= k < |lines|
    requires forall m :: j <= m < k ==> WellFormed(lines[m], num)
    requires j < k ==> TimeOf(lines[j], num) >= prev
    requires forall m :: j < m < k ==> TimeOf(lines[m - 1], num) <= TimeOf(lines[m], num)
    requires ParseLine(lines[k], k, PrevTime(lines, j, k, prev, num), num).Failure?
    ensures Run(lines, j, prev, acc, num)
            == Failure(ParseLine(lines[k], k, PrevTime(lines, j, k, prev, num), num).error)
    decreases k - j
  {
    if j < k {
      var (edge, feat) := ParseLine(lines[j], j, prev, num).value;
      RunStopsAt(lines, j + 1, k, edge.ts, Parsed(acc.table + [edge], acc.feats + [feat]), num);
    }
  }

  /** A file whose data lines before data line k (file line k + 1) are well
      formed and in order, and whose data line k fails, is rejected with the
      fault of that line, which names line k. */
  lemma PreprocessedStopsAt(file: seq<Line>, num: Numbers, k: nat)
    requires k + 1 < |file|
    requires forall m :: 1 <= m <= k ==> WellFormed(file[m], num)
    requires 0 < k ==> TimeOf(file[1], num) >= -1.0
    requires forall m :: 1 < m <= k ==> TimeOf(file[m - 1], num) <= TimeOf(file[m], num)
    requires ParseLine(file[k + 1], k, if k == 0 then -1.0 else TimeOf(file[k], num), num).Failure?
    ensures Preprocessed(file, num)
            == Failure(ParseLine(file[k + 1], k, if k == 0 then -1.0 else TimeOf(file[k], num), num).error)
    ensures Preprocessed(file, num).error.line == k
  {
    var lines := file[1..];
    assert forall m :: 0 <= m <= k ==> lines[m] == file[m + 1];
    RunStopsAt(lines, 0, k, -1.0, Parsed([], []), num);
  }

  /** Timestamps that go down stop the run at the first line where they do:
      with well-formed lines in order up to data line k - 1 and data line k
      below its predecessor (or below -1 when k == 0), the fault is the
      order violation at line k. */
  lemma PreprocessedOutOfOrderAt(file: seq<Line>, num: Numbers, k: nat)
    requires k + 1 < |file|
    requires forall m :: 1 <= m <= k + 1 ==> WellFormed(file[m], num)
    requires 0 < k ==> TimeOf(file[1], num) >= -1.0
    requires forall m :: 1 < m <= k ==> TimeOf(file[m - 1], num) <= TimeOf(file[m], num)
    requires TimeOf(file[k + 1], num) < if k == 0 then -1.0 else TimeOf(file[k], num)
    ensures Preprocessed(file, num) == Failure(TemporalOrderViolation(k))
  {
    PreprocessedStopsAt(file, num, k);
  }

  /** All lines have the same number of fields. */
  predicate SameWidth(lines: seq<Line>)
  {
    forall j, k :: 0 <= j < |lines| && 0 <= k < |lines| ==> |lines[j]| == |lines[k]|
  }

  /** Feature rows four fields shorter than their lines form a matrix exactly
      when the lines have equal widths. */
  lemma RectangularIffSameWidth(lines: seq<Line>, feats: Matrix)
    requires |feats| == |lines|
    requires forall k :: 0 <= k < |lines| ==> |feats[k]| == |lines[k]| - 4
    ensures Rectangular(feats) <==> SameWidth(lines)
  {
  }

  /** The loop over the data lines from previous time -1 succeeds exactly
      when every line is well formed and the timestamps are in order; its
      feature rows then form a matrix exactly when the lines have equal
      widths. */
  lemma DataLinesSucceedIff(lines: seq<Line>, num: Numbers)
    ensures Run(lines, 0, -1.0, Parsed([], []), num).Success?
            <==> AllWellFormed(lines, num) && InTimeOrder(lines, num)
    ensures Run(lines, 0, -1.0, Parsed([], []), num).Success?
            ==> (Rectangular(Run(lines, 0, -1.0, Parsed([], []), num).value.feats) <==> SameWidth(lines))
  {
    RunSucceedsIff(lines, 0, -1.0, Parsed([], []), num);
    var run := Run(lines, 0, -1.0, Parsed([], []), num);
    if run.Success? {
      RunRows(lines, 0, -1.0, Parsed([], []), num);
      var feats := run.value.feats;
      assert forall k :: 0 <= k < |lines| ==> feats[k] == FeaturesOf(lines[k], num);
      RectangularIffSameWidth(lines, feats);
    }
  }

  /** The source's run succeeds exactly when there is a header, every data
      line is well formed, the timestamps are in order (ties allowed) and all
      data lines carry the same number of features. */
  lemma PreprocessedSucceedsIff(file: seq<Line>, num: Numbers)
    ensures Preprocessed(file, num).Success?
            <==> |file| > 0 && AllWellFormed(file[1..], num) && InTimeOrder(file[1..], num) && SameWidth(file[1..])
  {
    if |file| > 0 {
      DataLinesSucceedIff(file[1..], num);
    }
  }

  /** On success row k of the table and of the feature matrix come from data
      line k, which is line k + 1 of the file (the header is dropped): u, i,
      ts and label from fields 0 to 3, idx == k, features from field 4 on. */
  lemma PreprocessedRow(file: seq<Line>, num: Numbers, k: nat)
    requires Preprocessed(file, num).Success?
    requires k < |Preprocessed(file, num).value.table|
    ensures WellFormed(file[k + 1], num)
    ensures Preprocessed(file, num).value.table[k] == EdgeOf(file[k + 1], k, num)
    ensures Preprocessed(file, num).value.table[k].idx == k
    ensures Preprocessed(file, num).value.feats[k] == FeaturesOf(file[k + 1], num)
  {
    RunRows(file[1..], 0, -1.0, Parsed([], []), num);
    assert file[1..][k] == file[k + 1];
  }
}
