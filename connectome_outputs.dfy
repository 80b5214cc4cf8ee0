/** Output assembly and the whole run: `preprocess_data` in
    preprocess_data/preprocess_connectome.py. Building paths, creating
    directories and writing the three files are not part of this model: the
    run returns the three artifacts, or the fault that stopped it before any
    of them was written. */
module ConnectomeOutputs {
  import opened Edges
  import opened ConnectomeParse
  import opened ConnectomeReindex

  /** The edge list, the edge feature matrix and the node feature matrix. */
  datatype Outputs = Outputs(edges: Table, edgeFeats: Matrix, nodeFeats: Matrix)

  /** The largest node id, source or target, of a non-empty table. */
  function MaxNodeId(t: Table): int
    requires |t| > 0
  {
    var mu := Max(Sources(t));
    var mi := Max(Targets(t));
    if mu >= mi then mu else mi
  }

  /** Lines 109-116: a zero row (as wide as the feature rows) stacked on top
      of the edge features, and a zero node feature matrix with one row per
      id from 0 to the largest node id. Fails where numpy does: on an empty
      feature matrix, which has no second dimension, and on a negative extent. */
  function Assemble(t: Table, feats: Matrix, nodeFeatDim: int): (r: Result<Outputs, Fault>)
    requires |feats| == |t| && Rectangular(feats)
    ensures r.Success? <==> |t| > 0 && nodeFeatDim >= 0 && MaxNodeId(t) + 1 >= 0
    ensures r.Success? ==> r.value.edges == t
    ensures r.Success? ==>
              var ef := r.value.edgeFeats;
              |ef| == |t| + 1 && Rectangular(ef)
              && (forall c :: 0 <= c < |ef[0]| ==> ef[0][c] == 0.0)
              && forall k :: 0 <= k < |t| ==> ef[k + 1] == feats[k]
    ensures r.Success? ==>
              var nf := r.value.nodeFeats;
              (forall n :: 0 <= n < |nf| ==> nf[n] == Zeros(nodeFeatDim))
              && (forall k :: 0 <= k < |t| ==> t[k].u < |nf| && t[k].i < |nf|)
              && exists k :: 0 <= k < |t| && (t[k].u == |nf| - 1 || t[k].i == |nf| - 1)
  {
    if |feats| == 0 then Failure(NoEdges)
    else
      var edgeFeats := [Zeros(|feats[0]|)] + feats;
      var maxIdx := MaxNodeId(t);
      if maxIdx + 1 < 0 || nodeFeatDim < 0 then Failure(NegativeDimension)
      else
        assert MaxNodeId(t) in Sources(t) || MaxNodeId(t) in Targets(t);
        assert forall k :: 0 <= k < |t| ==> Sources(t)[k] == t[k].u && Targets(t)[k] == t[k].i;
        Success(Outputs(t, edgeFeats, seq(maxIdx + 1, _ => Zeros(nodeFeatDim))))
  }

  /** What the whole run produces: parse and validate, reindex, assemble,
      stopping at the first fault. On success there is one edge row per data
      line and one more edge feature row, with row 0 zero, and the node
      feature rows are all zero. */
  function Processed(file: seq<Line>, num: Numbers, bipartite: bool, nodeFeatDim: int): (r: Result<Outputs, Fault>)
    ensures r.Success? ==> |file| > 1 && |r.value.edges| == |file| - 1 && |r.value.edgeFeats| == |file|
    ensures r.Success? ==> forall c :: 0 <= c < |r.value.edgeFeats[0]| ==> r.value.edgeFeats[0][c] == 0.0
    ensures r.Success? ==> nodeFeatDim >= 0 && forall n :: 0 <= n < |r.value.nodeFeats| ==> r.value.nodeFeats[n] == Zeros(nodeFeatDim)
    ensures Preprocessed(file, num).Failure? ==> r == Failure(Preprocessed(file, num).error)
  {
    match Preprocessed(file, num)
    case Failure(f) => Failure(f)
    case Success(p) =>
      match Reindex(p.table, bipartite)
      case Failure(f) => Failure(f)
      case Success(newDf) => Assemble(newDf, p.feats, nodeFeatDim)
  }

  /** The source's `preprocess_data`, up to the point where it writes files.
      It runs the parsing loop as the method `Preprocess`, where `Processed`
      uses the function `Preprocessed`; the promises of a run are proved
      about `Processed`, and this method is proved to return exactly it. */
  method PreprocessData(file: seq<Line>, num: Numbers, bipartite: bool, nodeFeatDim: int)
    returns (res: Result<Outputs, Fault>)
    ensures res == Processed(file, num, bipartite, nodeFeatDim)
  {
    var parsed := Preprocess(file, num);
    if parsed.Failure? {
      return Failure(parsed.error);
    }
    var df, edgeFeats := parsed.value.table, parsed.value.feats;
    var reindexed := Reindex(df, bipartite);
    if reindexed.Failure? {
      return Failure(reindexed.error);
    }
    var newDf := reindexed.value;
    res := Assemble(newDf, edgeFeats, nodeFeatDim);
  }

  /** A run writes its outputs exactly when the file parses and validates,
      has at least one data line, the node feature width is not negative, and
      either bipartite mode's id checks pass, or (outside it) the largest raw
      node id is at least -2 so that the node matrix has a non-negative row
      count. */
  lemma ProcessedSucceedsIff(file: seq<Line>, num: Numbers, bipartite: bool, nodeFeatDim: int)
    ensures var p := Preprocessed(file, num);
            Processed(file, num, bipartite, nodeFeatDim).Success?
            <==> p.Success? && |p.value.table| > 0 && nodeFeatDim >= 0
                 && if bipartite then BipartiteIds(p.value.table) else MaxNodeId(p.value.table) >= -2
  {
    var p := Preprocessed(file, num);
    if p.Success? && |p.value.table| > 0 {
      var df := p.value.table;
      var r := Reindex(df, bipartite);
      if r.Success? {
        var newDf := r.value;
        if bipartite {
          assert Sources(newDf)[0] == newDf[0].u == df[0].u + 1 && Sources(df)[0] == df[0].u;
        } else {
          MaxShifted(Sources(df), Sources(newDf), 1);
          MaxShifted(Targets(df), Targets(newDf), 1);
        }
      }
    }
  }

  /** On success output row k is data line k with the source id plus 1, the
      target id shifted as reindexing promises (by max(u) + 2 in bipartite
      mode, by 1 otherwise), timestamp and label as read and edge index k + 1. */
  lemma ProcessedRow(file: seq<Line>, num: Numbers, bipartite: bool, nodeFeatDim: int, k: nat)
    requires Processed(file, num, bipartite, nodeFeatDim).Success?
    requires k < |file| - 1
    ensures WellFormed(file[k + 1], num)
    ensures var raw := EdgeOf(file[k + 1], k, num);
            var shift := if bipartite then Max(Sources(Preprocessed(file, num).value.table)) + 2 else 1;
            Processed(file, num, bipartite, nodeFeatDim).value.edges[k]
            == Edge(raw.u + 1, raw.i + shift, raw.ts, raw.stateLabel, k + 1)
  {
    var p := Preprocessed(file, num).value;
    var newDf := Reindex(p.table, bipartite).value;
    assert Processed(file, num, bipartite, nodeFeatDim).value.edges == newDf;
    PreprocessedRow(file, num, k);
  }

  /** On success the edge feature row at index k + 1, the edge index of data
      line k, holds that line's features. */
  lemma ProcessedFeatureRow(file: seq<Line>, num: Numbers, bipartite: bool, nodeFeatDim: int, k: nat)
    requires Processed(file, num, bipartite, nodeFeatDim).Success?
    requires k < |file| - 1
    ensures WellFormed(file[k + 1], num)
    ensures Processed(file, num, bipartite, nodeFeatDim).value.edgeFeats[k + 1] == FeaturesOf(file[k + 1], num)
  {
    var p := Preprocessed(file, num).value;
    var newDf := Reindex(p.table, bipartite).value;
    assert Processed(file, num, bipartite, nodeFeatDim).value == Assemble(newDf, p.feats, nodeFeatDim).value;
    PreprocessedRow(file, num, k);
  }
}
