/** The row truncator, DG_data/truncate_csv.py: every row of a CSV file is
    read, the list slice `data[:-n]` is kept, and the result is written back.
    Reading and writing are not part of this model; a table is its rows,
    each row its cells. */
module TruncateCsv {

  type Row = seq<string>

  function Min(a: int, b: int): int { if a <= b then a else b }

  /** Where a Python slice with a positive step stops, for a stop bound given
      to a list of length `len`: a negative bound counts from the end, and the
      result is clamped to 0..len. */
  function SliceStop(len: nat, stop: int): (s: nat)
    ensures s <= len
    ensures 0 <= stop ==> s == Min(stop, len)
    ensures stop < 0 ==> s == if len + stop < 0 then 0 else len + stop
  {
    if stop < 0 then (if len + stop < 0 then 0 else len + stop)
    else if stop > len then len
    else stop
  }

  /** `data[:-n]`, as written. The result is always a prefix of the input.
      For 0 < n <= len it drops exactly the last n rows; for n >= len it is
      empty; for n == 0 it is empty too, since -0 == 0 and `data[:0]` keeps
      nothing; for a negative n it keeps the first -n rows (all of them when
      -n >= len). */
  function Truncate(data: seq<Row>, n: int): (r: seq<Row>)
    ensures |r| <= |data| && r == data[..|r|]
    ensures 0 < n <= |data| ==> |r| == |data| - n
    ensures 0 < n && |data| <= n ==> r == []
    ensures n == 0 ==> r == []
    ensures n < 0 ==> |r| == Min(-n, |data|)
  {
    data[..SliceStop(|data|, -n)]
  }

  /** Dropping zero rows empties any non-empty table instead of leaving it
      as it is. */
  lemma TruncateZeroIsNotIdentity(data: seq<Row>)
    requires |data| > 0
    ensures Truncate(data, 0) == [] && Truncate(data, 0) != data
  {
  }

  /** Dropping the last n rows, n not negative, with n == 0 leaving the table
      as it is. */
  function DropLast(data: seq<Row>, n: nat): (r: seq<Row>)
    ensures |r| == if n <= |data| then |data| - n else 0
    ensures r == data[..|r|]
    ensures n == 0 ==> r == data
  {
    if n == 0 then data else Truncate(data, n)
  }

  /** For every positive count the corrected truncation and the source's
      slice agree: the two differ only at n == 0. */
  lemma DropLastAgreesWhenPositive(data: seq<Row>, n: nat)
    ensures n > 0 ==> DropLast(data, n) == Truncate(data, n)
    ensures n == 0 && |data| > 0 ==> DropLast(data, n) != Truncate(data, n)
  {
  }
}
