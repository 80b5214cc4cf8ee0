/** Reindex: `reindex` in preprocess_data/preprocess_connectome.py. The input
    table is a value, so the copy the source takes before changing columns is
    implicit: the function returns a new table and the argument is unchanged. */
module ConnectomeReindex {
  import opened Edges

  /** pandas' density test on an id column: max - min + 1 equals the number
      of distinct ids. On an empty column max and min are NaN, and the
      comparison is false. */
  predicate Dense(col: seq<int>)
  {
    |col| > 0 && Max(col) - Min(col) + 1 == |Distinct(col)|
  }

  /** The three assertions of the bipartite branch. */
  predicate BipartiteIds(df: Table)
  {
    Dense(Sources(df)) && Dense(Targets(df)) && Min(Sources(df)) == 0 && Min(Targets(df)) == 0
  }

  /** `new_df.i = df.i + upper_u`. */
  function ShiftTargets(t: Table, offset: int): Table
  {
    seq(|t|, k requires 0 <= k < |t| => t[k].(i := t[k].i + offset))
  }

  /** `new_df.u += 1; new_df.i += 1; new_df.idx += 1`. */
  function OneBased(t: Table): Table
  {
    seq(|t|, k requires 0 <= k < |t| => t[k].(u := t[k].u + 1, i := t[k].i + 1, idx := t[k].idx + 1))
  }

  /** Checks the id columns in bipartite mode only, moves target ids past the
      source ids in that mode, then makes every id and index 1-based. Row
      count, row order, timestamps and labels are kept. */
  function Reindex(df: Table, bipartite: bool): (r: Result<Table, Fault>)
    ensures r.Failure? <==> bipartite && !BipartiteIds(df)
    ensures r.Success? ==> |r.value| == |df|
    ensures r.Success? ==> forall k :: 0 <= k < |df| ==>
              r.value[k].u == df[k].u + 1
              && r.value[k].i == (if bipartite then df[k].i + Max(Sources(df)) + 2 else df[k].i + 1)
              && r.value[k].ts == df[k].ts && r.value[k].stateLabel == df[k].stateLabel
              && r.value[k].idx == df[k].idx + 1
  {
    if bipartite && !Dense(Sources(df)) then Failure(SourceIdsNotDense)
    else if bipartite && !Dense(Targets(df)) then Failure(TargetIdsNotDense)
    else if bipartite && !(Min(Sources(df)) == Min(Targets(df)) == 0) then Failure(IdsNotFromZero)
    else
      var newDf := if bipartite then ShiftTargets(df, Max(Sources(df)) + 1) else df;
      Success(OneBased(newDf))
  }

  /** A column's distinct values are exactly 0..max. */
  predicate FromZeroWithoutGaps(col: seq<int>)
    requires |col| > 0
  {
    Distinct(col) == Range(0, Max(col))
  }

  lemma DenseFromZero(col: seq<int>)
    requires |col| > 0
    ensures Dense(col) && Min(col) == 0 <==> FromZeroWithoutGaps(col)
  {
    Contiguous(col);
    if FromZeroWithoutGaps(col) {
      assert 0 in Distinct(col);
      assert Min(col) in Distinct(col);
    }
  }

  /** Bipartite reindexing accepts a table exactly when it has rows and its
      source ids and its target ids are each all of 0..max, with no gap. */
  lemma BipartiteAcceptsIff(df: Table)
    ensures Reindex(df, true).Success?
            <==> |df| > 0 && FromZeroWithoutGaps(Sources(df)) && FromZeroWithoutGaps(Targets(df))
  {
    if |df| > 0 {
      DenseFromZero(Sources(df));
      DenseFromZero(Targets(df));
    }
  }

  /** In bipartite mode source ids land in 1..max(u)+1 and target ids from
      max(u)+2 on, so no source id equals a target id. */
  lemma BipartiteIdsDisjoint(df: Table)
    requires Reindex(df, true).Success?
    ensures var out := Reindex(df, true).value;
            var upper := Max(Sources(df)) + 1;
            (forall k :: 0 <= k < |out| ==> 1 <= out[k].u <= upper && upper + 1 <= out[k].i)
            && forall k, l :: 0 <= k < |out| && 0 <= l < |out| ==> out[k].u != out[l].i
  {
    var out := Reindex(df, true).value;
    var upper := Max(Sources(df)) + 1;
    forall k | 0 <= k < |out|
      ensures 1 <= out[k].u <= upper && upper + 1 <= out[k].i
    {
      assert Sources(df)[k] == df[k].u && Targets(df)[k] == df[k].i;
    }
  }

  /** Reindexing renames ids one to one: two rows share an output id exactly
      when they share the input id, for sources and for targets. */
  lemma ReindexOneToOne(df: Table, bipartite: bool)
    requires Reindex(df, bipartite).Success?
    ensures var out := Reindex(df, bipartite).value;
            forall k, l :: 0 <= k < |df| && 0 <= l < |df| ==>
              (out[k].u == out[l].u <==> df[k].u == df[l].u)
              && (out[k].i == out[l].i <==> df[k].i == df[l].i)
  {
  }

  /** Outside bipartite mode nothing is checked: a source id column with a gap
      (0, 1, 3) and ids that do not start at 0 are accepted. */
  lemma NonBipartiteAcceptsGaps()
    ensures var df := [Edge(0, 5, 0.0, 0.0, 0), Edge(1, 5, 1.0, 0.0, 1), Edge(3, 6, 2.0, 0.0, 2)];
            Reindex(df, false).Success? && !Reindex(df, true).Success?
  {
    var df := [Edge(0, 5, 0.0, 0.0, 0), Edge(1, 5, 1.0, 0.0, 1), Edge(3, 6, 2.0, 0.0, 2)];
    var us: seq<int> := [0, 1, 3];
    assert Sources(df) == us;
    assert Max(us) == 3 by { assert Max(us[1..]) == 3 by { assert us[1..][1..] == [3]; } }
    assert Min(us) == 0;
    assert Distinct(us) == {0, 1, 3};
    assert |Distinct(us)| == 3;
    assert !Dense(us);
  }
}
