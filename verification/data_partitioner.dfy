/** The remote data partitioner of a parallel for-loop: the partition formats,
    the natural number of partition groups a format gives a matrix, the number
    of reducers the shuffle is sized to, and the order in which one partition
    job deletes old output, resolves that number and runs its three stages. */
module DataPartitioner {
  import opened Exceptions
  import opened JavaArith

  /** How a matrix is cut into partitions. `Unpartitioned` is the
      enumeration's NONE and stands for every value the reducer switch leaves
      to its default branch. */
  datatype Format =
    | RowWise            // one partition per row
    | ColumnWise         // one partition per column
    | RowBlockWise       // one partition per block row
    | ColumnBlockWise    // one partition per block column
    | RowBlockWiseN      // one partition per `n` rows
    | ColumnBlockWiseN   // one partition per `n` columns
    | Unpartitioned

  /** A partitioner as configured by its constructor: the format and the
      granularity `n` it inherits, and the requested number of reducers. */
  datatype Partitioner = Partitioner(format: Format, n: int, numRed: int)

  /** The matrix characteristics a partition job is called with: row and
      column count, block height and block width. */
  datatype Dims = Dims(rlen: int, clen: int, brlen: int, bclen: int)

  /** The dimension a block-wise format splits and the divisor it splits it
      by; `NoSplit` for the formats that do not divide. */
  datatype Split = Split(dimension: int, divisor: int) | NoSplit

  /** Which dimension and divisor the reducer switch uses for each format. */
  function SplitOf(format: Format, n: int, d: Dims): (s: Split)
    ensures s.NoSplit? <==> format in {RowWise, ColumnWise, Unpartitioned}
  {
    match format
    case RowBlockWise => Split(d.rlen, d.brlen)
    case ColumnBlockWise => Split(d.clen, d.bclen)
    case RowBlockWiseN => Split(d.rlen, n)
    case ColumnBlockWiseN => Split(d.clen, n)
    case _ => NoSplit
  }

  /** The number of reducer groups the format gives the matrix, as the
      partitioner computes it with Java's long arithmetic: -1 for a format the
      switch does not list, and an arithmetic exception when a block-wise
      format divides by a zero block size or granularity. */
  function ReducerGroups(format: Format, n: int, d: Dims): (r: Result<int>)
    ensures r.Err? <==> SplitOf(format, n, d).Split? && SplitOf(format, n, d).divisor == 0
    ensures r.Err? ==> r.error == ArithmeticException
    ensures format == RowWise ==> r == Ok(d.rlen)
    ensures format == ColumnWise ==> r == Ok(d.clen)
    ensures format == Unpartitioned ==> r == Ok(-1)
  {
    match format
    case RowWise => Ok(d.rlen)
    case ColumnWise => Ok(d.clen)
    case Unpartitioned => Ok(-1)
    case _ =>
      var s := SplitOf(format, n, d);
      if s.divisor == 0 then Err(ArithmeticException) else Ok(CeilGroups(s.dimension, s.divisor))
  }

  /** The natural group count is defined for a format when the dimension it
      counts is not negative and the divisor it uses, if any, is positive. */
  predicate NaturalDefined(format: Format, n: int, d: Dims) {
    match format
    case RowWise => d.rlen >= 0
    case ColumnWise => d.clen >= 0
    case RowBlockWise => d.rlen >= 0 && d.brlen > 0
    case ColumnBlockWise => d.clen >= 0 && d.bclen > 0
    case RowBlockWiseN => d.rlen >= 0 && n > 0
    case ColumnBlockWiseN => d.clen >= 0 && n > 0
    case Unpartitioned => false
  }

  /** The natural group count of a partitioning, written as the ceiling
      divisions it is meant to be: rows, columns, or the ceiling of rows or
      columns by the block size or by `n`. */
  function NaturalGroupCount(format: Format, n: int, d: Dims): nat
    requires NaturalDefined(format, n, d)
  {
    match format
    case RowWise => d.rlen
    case ColumnWise => d.clen
    case RowBlockWise => Ceil(d.rlen, d.brlen)
    case ColumnBlockWise => Ceil(d.clen, d.bclen)
    case RowBlockWiseN => Ceil(d.rlen, n)
    case ColumnBlockWiseN => Ceil(d.clen, n)
  }

  /** For every listed format whose dimension is not negative and whose
      divisor is positive the computed count is the natural group count:
      quotient plus one for a remainder is the ceiling. */
  lemma ReducerGroupsIsNatural(format: Format, n: int, d: Dims)
    requires NaturalDefined(format, n, d)
    ensures ReducerGroups(format, n, d) == Ok(NaturalGroupCount(format, n, d) as int)
  {
    match format
    case RowWise =>
    case ColumnWise =>
    case RowBlockWise => CeilGroupsIsCeil(d.rlen, d.brlen);
    case ColumnBlockWise => CeilGroupsIsCeil(d.clen, d.bclen);
    case RowBlockWiseN => CeilGroupsIsCeil(d.rlen, n);
    case ColumnBlockWiseN => CeilGroupsIsCeil(d.clen, n);
  }

  /** For a block-wise format over a non-empty dimension the groups cover the
      dimension exactly: the last group is non-empty and no larger than the
      others, and the group count is the only one with that property. */
  lemma ReducerGroupsExactCover(format: Format, n: int, d: Dims, g': int)
    requires SplitOf(format, n, d).Split?
    requires SplitOf(format, n, d).divisor > 0 && SplitOf(format, n, d).dimension > 0
    ensures ReducerGroups(format, n, d).Ok?
    ensures ExactCover(ReducerGroups(format, n, d).value, SplitOf(format, n, d).dimension, SplitOf(format, n, d).divisor)
    ensures ExactCover(g', SplitOf(format, n, d).dimension, SplitOf(format, n, d).divisor) ==> g' == ReducerGroups(format, n, d).value
  {
    var s := SplitOf(format, n, d);
    CeilGroupsExactCover(s.dimension, s.divisor);
    if ExactCover(g', s.dimension, s.divisor) {
      ExactCoverUnique(g', CeilGroups(s.dimension, s.divisor), s.dimension, s.divisor);
    }
  }

  /** The total number of items in a sequence of groups. */
  function Sum(s: seq<nat>): nat {
    if |s| == 0 then 0 else s[0] + Sum(s[1..])
  }

  /** The sizes of the consecutive groups a dimension of `x` items is cut into,
      `b` items to a group: full groups first and, when `b` does not divide
      `x`, one shorter final group for the rest. There are as many groups as
      the reducer switch counts, they hold every item once, none is empty,
      and only the last may be short. */
  function GroupSizes(x: nat, b: nat): (s: seq<nat>)
    requires b > 0
    ensures |s| == CeilGroups(x, b)
    ensures Sum(s) == x
    ensures forall i :: 0 <= i < |s| ==> 1 <= s[i] <= b
    ensures forall i :: 0 <= i < |s| - 1 ==> s[i] == b
    decreases x
  {
    if x == 0 then
      []
    else if x <= b then
      CeilGroupsOfOneGroup(x, b);
      [x]
    else
      CeilGroupsStep(x, b);
      var rest := GroupSizes(x - b, b);
      assert ([b] + rest)[1..] == rest;
      [b] + rest
  }

  /** Java's `Math.min` on two longs. */
  function Min(a: int, b: int): (m: int)
    ensures m <= a && m <= b
    ensures m == a || m == b
  {
    if a <= b then a else b
  }

  /** The number of reducers the shuffle is sized to: the requested count
      capped at the number of reducer groups. */
  function DetermineNumReducers(p: Partitioner, d: Dims): (r: Result<int>)
    ensures r.Err? <==> ReducerGroups(p.format, p.n, d).Err?
    ensures r.Err? ==> r.error == ArithmeticException
    ensures r.Ok? ==> r.value <= p.numRed && r.value <= ReducerGroups(p.format, p.n, d).value
    ensures r.Ok? ==> r.value == p.numRed || r.value == ReducerGroups(p.format, p.n, d).value
  {
    var groups :- ReducerGroups(p.format, p.n, d);
    Ok(Min(p.numRed, groups))
  }

  /** A format the switch does not list leaves the group count at -1, so the
      result is -1 for every request of at least -1, and the request itself
      below that. */
  lemma UnlistedFormatGivesMinusOne(p: Partitioner, d: Dims)
    requires p.format == Unpartitioned
    ensures p.numRed >= -1 ==> DetermineNumReducers(p, d) == Ok(-1)
    ensures p.numRed < -1 ==> DetermineNumReducers(p, d) == Ok(p.numRed)
  {
  }

  /** With a positive request and a listed format whose natural group count is
      defined, the reducer count is the smaller of the request and the natural
      group count: never more than either, and equal to one of them. */
  lemma NumReducersIsCappedNatural(p: Partitioner, d: Dims)
    requires p.numRed > 0
    requires NaturalDefined(p.format, p.n, d)
    ensures DetermineNumReducers(p, d).Ok?
    ensures var k := DetermineNumReducers(p, d).value;
            var g := NaturalGroupCount(p.format, p.n, d) as int;
            0 <= k <= p.numRed && k <= g && (k == p.numRed || k == g)
  {
    ReducerGroupsIsNatural(p.format, p.n, d);
  }

  /** One step of a partition job, in the order it happens. */
  datatype Step =
    | DeleteOutput(path: string)          // remove any earlier output at the path
    | FanOut                              // map every input block to its partition records
    | GroupByKey(numReducers: int)        // shuffle the records by partition id
    | WritePartitions(path: string)       // write every group below the path

  /** Where a partition job fails outside the modelled arithmetic, if at all. */
  datatype Fault = NoFault | DeleteFails | JobFails

  /** The steps a partition job took and whether it completed. */
  datatype Run = Run(steps: seq<Step>, outcome: Result<()>)

  /** One partition job: delete the old output, resolve the reducer count, then
      fan out, group by partition id with that many reducers and write. Every
      failure is rethrown as a runtime exception wrapping its cause. */
  function PartitionMatrix(p: Partitioner, fnameNew: string, d: Dims, fault: Fault): (r: Run)
    ensures |r.steps| >= 1 && r.steps[0] == DeleteOutput(fnameNew)
    ensures r.outcome.Err? ==> r.outcome.error.DMLRuntimeException?
    ensures fault == DeleteFails ==> r.outcome == Err(DMLRuntimeException(IOException))
    ensures fault != DeleteFails && DetermineNumReducers(p, d).Err? ==>
              r.outcome == Err(DMLRuntimeException(DetermineNumReducers(p, d).error))
    ensures fault == JobFails && DetermineNumReducers(p, d).Ok? ==>
              r.outcome == Err(DMLRuntimeException(SparkException))
    ensures r.outcome.Ok? <==> fault == NoFault && DetermineNumReducers(p, d).Ok?
    ensures forall i :: 0 <= i < |r.steps| && r.steps[i].GroupByKey? ==>
              DetermineNumReducers(p, d) == Ok(r.steps[i].numReducers)
    ensures r.outcome.Ok? ==>
              r.steps == [DeleteOutput(fnameNew), FanOut,
                          GroupByKey(DetermineNumReducers(p, d).value), WritePartitions(fnameNew)]
  {
    var cleanup := [DeleteOutput(fnameNew)];
    if fault.DeleteFails? then
      Run(cleanup, Err(DMLRuntimeException(IOException)))
    else
      match DetermineNumReducers(p, d)
      case Err(e) => Run(cleanup, Err(DMLRuntimeException(e)))
      case Ok(numRed) =>
        var steps := cleanup + [FanOut, GroupByKey(numRed), WritePartitions(fnameNew)];
        if fault.JobFails? then Run(steps, Err(DMLRuntimeException(SparkException)))
        else Run(steps, Ok(()))
  }

  /** A job that cannot size its shuffle never starts the distributed stages,
      and a job whose cleanup fails does nothing after the cleanup. */
  lemma NoStagesWithoutCleanupAndReducers(p: Partitioner, fnameNew: string, d: Dims, fault: Fault)
    requires fault == DeleteFails || DetermineNumReducers(p, d).Err?
    ensures PartitionMatrix(p, fnameNew, d, fault).steps == [DeleteOutput(fnameNew)]
  {
  }
}
