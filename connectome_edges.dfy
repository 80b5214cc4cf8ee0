/** The values shared by the connectome preprocessor's three stages: the
    edge table (a pandas DataFrame with columns u, i, ts, label, idx), numeric
    matrices, the ways a run can fail, and the column statistics pandas
    provides (max, min, the number of distinct values). */
module Edges {

  datatype Option<T> = None | Some(value: T)

  datatype Result<T, E> = Success(value: T) | Failure(error: E)

  /** One row of the edge table: source node, target node, timestamp,
      state label and edge index. */
  datatype Edge = Edge(u: int, i: int, ts: real, stateLabel: real, idx: int)

  type Table = seq<Edge>

  /** A dense numeric matrix, row by row. */
  type Matrix = seq<seq<real>>

  /** Every way a run of the preprocessor stops before writing anything. */
  datatype Fault =
    | EmptyFile                            // no header line to skip
    | MissingField(line: nat, field: nat)  // a data line has too few fields
    | NotANumber(line: nat, field: nat)    // int() or float() rejects a field
    | TemporalOrderViolation(line: nat)    // a timestamp below the previous one
    | RaggedFeatures                       // feature rows of different lengths
    | SourceIdsNotDense                    // bipartite: source ids have a gap
    | TargetIdsNotDense                    // bipartite: target ids have a gap
    | IdsNotFromZero                       // bipartite: an id range does not start at 0
    | NoEdges                              // no data line, so no feature width
    | NegativeDimension                    // a zero matrix with a negative extent

  function Sources(t: Table): seq<int> { seq(|t|, k requires 0 <= k < |t| => t[k].u) }

  function Targets(t: Table): seq<int> { seq(|t|, k requires 0 <= k < |t| => t[k].i) }

  /** The largest value of a non-empty column. */
  function Max(s: seq<int>): (m: int)
    requires |s| > 0
    ensures m in s
    ensures forall k :: 0 <= k < |s| ==> s[k] <= m
  {
    if |s| == 1 then s[0]
    else
      var rest := Max(s[1..]);
      if s[0] >= rest then s[0] else rest
  }

  /** The smallest value of a non-empty column. */
  function Min(s: seq<int>): (m: int)
    requires |s| > 0
    ensures m in s
    ensures forall k :: 0 <= k < |s| ==> m <= s[k]
  {
    if |s| == 1 then s[0]
    else
      var rest := Min(s[1..]);
      if s[0] <= rest then s[0] else rest
  }

  /** The distinct values of a column. */
  function Distinct(s: seq<int>): set<int> { set x | x in s }

  /** The integers lo, lo+1, ..., hi. */
  function Range(lo: int, hi: int): (r: set<int>)
    ensures forall x :: x in r <==> lo <= x <= hi
    decreases hi - lo
  {
    if lo > hi then {} else Range(lo, hi - 1) + {hi}
  }

  /** A zero row of the given width. */
  function Zeros(width: nat): seq<real> { seq(width, _ => 0.0) }

  /** Every row has the same number of columns. */
  predicate Rectangular(m: Matrix)
  {
    forall j, k :: 0 <= j < |m| && 0 <= k < |m| ==> |m[j]| == |m[k]|
  }

  lemma {:induction false} RangeSize(lo: int, hi: int)
    requires lo <= hi + 1
    ensures |Range(lo, hi)| == hi - lo + 1
    decreases hi - lo
  {
    if lo <= hi {
      RangeSize(lo, hi - 1);
    }
  }

  /** A subset of a finite set with as many elements is the whole set. */
  lemma SameSizeSubset(a: set<int>, b: set<int>)
    requires a <= b && |a| == |b|
    ensures a == b
  {
    assert |b - a| == |b| - |a|;
  }

  /** Adding the same amount to every value of a column adds it to the max. */
  lemma MaxShifted(s: seq<int>, t: seq<int>, d: int)
    requires |s| > 0 && |t| == |s|
    requires forall k :: 0 <= k < |s| ==> t[k] == s[k] + d
    ensures Max(t) == Max(s) + d
  {
    var k :| 0 <= k < |s| && s[k] == Max(s);
    assert t[k] == Max(s) + d;
  }

  /** A column passes pandas' density test, max - min + 1 equal to the number
      of distinct values, exactly when its values are all of min..max. */
  lemma Contiguous(s: seq<int>)
    requires |s| > 0
    ensures Max(s) - Min(s) + 1 == |Distinct(s)| <==> Distinct(s) == Range(Min(s), Max(s))
  {
    assert Distinct(s) <= Range(Min(s), Max(s));
    RangeSize(Min(s), Max(s));
    if Max(s) - Min(s) + 1 == |Distinct(s)| {
      SameSizeSubset(Distinct(s), Range(Min(s), Max(s)));
    }
  }
}
