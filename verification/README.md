# Remote data partitioner and ctable operator: a Dafny model

This project models two pure pieces of a declarative machine-learning system.

The first is the Spark-based remote data partitioner of the parallel for-loop (`DataPartitionerRemoteSpark`). A partition format (row-wise, column-wise, block-wise, or `n`-wise) gives a matrix a natural number of partition groups. The partitioner caps the requested number of reducers at that count before it sizes the shuffle. The model also covers the order in which one partition job runs:

1. delete the old output;
2. resolve the reducer count;
3. fan out, group by key and write;
4. wrap any failure in a runtime exception.

The second is the ternary (`ctable`) low-level operator (`Ternary`):

- how it classifies a triple of input data types into a ctable variant;
- the opcode of each variant and the inverse parse;
- the instruction each variant generates from input indices, with each variant's check that scalar inputs carry index -1;
- the opcode choice and operand kinds of the name-based instruction.

Modules:

- `Exceptions` (`exceptions.dfy`): the Java exception kinds involved, and a `Result` type that replaces a throw.
- `JavaArith` (`java_arith.dfy`): Java's long `/` and `%`, which truncate toward zero; Dafny's are Euclidean. Also the partitioner's "quotient plus one for a remainder" group count, with its ceiling, exact-cover, uniqueness and dense-id lemmas.
- `DataPartitioner` (`data_partitioner.dfy`): partition formats, the reducer-group switch, `determineNumReducers`, and the step order of `partitionMatrix`.
- `Ternary` (`ternary.dfy`): the ctable classifier, the opcode bijection, and both instruction generators.

Behaviour of the code worth knowing, which the model follows:

- `determineNumReducers` validates nothing: it returns `min(numRed, groups)`, which is 0 for an empty dimension and a non-negative request, and -1 (or a smaller request) for a format the switch does not list.
- A zero block size or zero `n` makes Java's division throw `ArithmeticException`. The `catch` in `partitionMatrix` wraps it in a `DMLRuntimeException`, and the model returns that as an error.
- A comment on the expansion variant says its second and third indices must both be -1. The code checks only the third. The model follows the code, and `Ternary.ExpandIgnoresSecondIndex` exhibits an accepted second index of 5.

## Model

| member | source | states |
|---|---|---|
| JavaArith.DivRemIdentity | src/main/java/org/apache/sysml/runtime/controlprogram/parfor/DataPartitionerRemoteSpark.java:108-111 | the truncating quotient and remainder used by the group-count formulas satisfy Java's identity: quotient times divisor plus remainder is the dividend, the remainder is smaller than the divisor and takes the dividend's sign |
| JavaArith.DivOfNonNegative | src/main/java/org/apache/sysml/runtime/controlprogram/parfor/DataPartitionerRemoteSpark.java:108-111 | on non-negative dimensions and positive divisors Java's quotient and remainder equal the mathematical ones |
| JavaArith.CeilGroupsIsCeil | src/main/java/org/apache/sysml/runtime/controlprogram/parfor/DataPartitionerRemoteSpark.java:108-111 | the quotient plus one for a non-zero remainder equals the ceiling `(x + b - 1) / b` for every `x >= 0`, `b > 0` |
| JavaArith.CeilGroupsExactCover | src/main/java/org/apache/sysml/runtime/controlprogram/parfor/DataPartitionerRemoteSpark.java:108-111 | for `x > 0`, `b > 0` the group count `g` satisfies `(g-1)*b < x <= g*b`, so the last group holds between 1 and `b` items |
| JavaArith.ExactCoverUnique | src/main/java/org/apache/sysml/runtime/controlprogram/parfor/DataPartitionerRemoteSpark.java:108-111 | at most one group count covers a dimension exactly, so the computed count is the only one without an empty or missing group |
| JavaArith.GroupIdsDense | src/main/java/org/apache/sysml/runtime/controlprogram/parfor/DataPartitionerRemoteSpark.java:108-111 | with the computed count `g`, every item's 1-based group id lies in `1..g`, and every id in `1..g` is the id of an item of the dimension |
| JavaArith.CeilGroupsOfOneGroup | src/main/java/org/apache/sysml/runtime/controlprogram/parfor/DataPartitionerRemoteSpark.java:108-111 | a non-empty dimension of at most `b` items gives exactly one group |
| JavaArith.CeilGroupsStep | src/main/java/org/apache/sysml/runtime/controlprogram/parfor/DataPartitionerRemoteSpark.java:108-111 | removing one full group of `b` from a dimension longer than `b` lowers the group count by exactly one |
| DataPartitioner.ReducerGroups | src/main/java/org/apache/sysml/runtime/controlprogram/parfor/DataPartitionerRemoteSpark.java:103-114 | row-wise gives `rlen`, column-wise gives `clen`, a format the switch does not list keeps -1, and a block-wise format fails with an arithmetic exception exactly when its divisor is zero |
| DataPartitioner.ReducerGroupsIsNatural | src/main/java/org/apache/sysml/runtime/controlprogram/parfor/DataPartitionerRemoteSpark.java:106-111 | for each of the six listed formats, whenever the counted dimension is not negative and the divisor that format uses (block size or `n`, if any) is positive, the computed count is the natural one: `rlen`, `clen`, or the ceiling of rows or columns by the block size or by `n` |
| DataPartitioner.ReducerGroupsExactCover | src/main/java/org/apache/sysml/runtime/controlprogram/parfor/DataPartitionerRemoteSpark.java:108-111 | for every block-wise format over a non-empty dimension the count covers the dimension exactly, and no other count does |
| DataPartitioner.GroupSizes | src/main/java/org/apache/sysml/runtime/controlprogram/parfor/DataPartitionerRemoteSpark.java:108-111 | cutting a dimension into consecutive groups of `b` gives as many groups as the switch counts; their sizes sum to the dimension, none is empty or larger than `b`, and only the last may be short |
| DataPartitioner.Min | src/main/java/org/apache/sysml/runtime/controlprogram/parfor/DataPartitionerRemoteSpark.java:116 | `Math.min` returns one of its arguments and is at most both |
| DataPartitioner.DetermineNumReducers | src/main/java/org/apache/sysml/runtime/controlprogram/parfor/DataPartitionerRemoteSpark.java:100-117 | the reducer count is at most the request and at most the group count and equals one of them; it fails, with an arithmetic exception, exactly when the group count does |
| DataPartitioner.UnlistedFormatGivesMinusOne | src/main/java/org/apache/sysml/runtime/controlprogram/parfor/DataPartitionerRemoteSpark.java:103-116 | for a format the switch leaves to its default branch the result is -1 for every request of at least -1, and the request itself below that |
| DataPartitioner.NumReducersIsCappedNatural | src/main/java/org/apache/sysml/runtime/controlprogram/parfor/DataPartitionerRemoteSpark.java:104-116 | with a positive request and a listed format whose counted dimension is not negative and whose divisor, if any, is positive, the result is `min(request, natural group count)` and never negative |
| DataPartitioner.PartitionMatrix | src/main/java/org/apache/sysml/runtime/controlprogram/parfor/DataPartitionerRemoteSpark.java:67-90 | the old output is deleted first; the shuffle is grouped with exactly the resolved reducer count; a successful job runs delete, fan-out, group, write in that order; it succeeds exactly when no step fails and the count resolves; every failure is a runtime exception wrapping its cause: the storage error of a failed delete, the arithmetic exception of a zero divisor, or the failure of the distributed job |
| DataPartitioner.NoStagesWithoutCleanupAndReducers | src/main/java/org/apache/sysml/runtime/controlprogram/parfor/DataPartitionerRemoteSpark.java:67-90 | when the cleanup fails or the reducer count cannot be computed, nothing runs after the cleanup |
| Ternary.FindCtableOperation | src/main/java/org/apache/sysml/lops/Ternary.java:98-118 | the result is `Invalid` exactly when the first input is not a matrix; each of the scalar-weight, histogram and weighted-histogram variants is chosen exactly for its (matrix, ·, ·) type pattern; the general transform covers every other matrix-first combination; expansion is never chosen |
| Ternary.GetOpcode | src/main/java/org/apache/sysml/lops/Ternary.java:335-348 | every real variant has one of the five opcodes; `Invalid` is rejected with an unsupported-operation exception |
| Ternary.GetOperationType | src/main/java/org/apache/sysml/lops/Ternary.java:350-368 | exactly the five opcodes parse, never to `Invalid`; every other string is rejected with an unsupported-operation exception |
| Ternary.OpcodeRoundTrip | src/main/java/org/apache/sysml/lops/Ternary.java:335-368 | parsing the opcode of any variant other than `Invalid` gives that variant back |
| Ternary.OperationTypeRoundTrip | src/main/java/org/apache/sysml/lops/Ternary.java:335-368 | for each of the five opcodes, printing the parsed variant gives the opcode back |
| Ternary.OpcodeInjective | src/main/java/org/apache/sysml/lops/Ternary.java:335-348 | two variants with the same opcode are the same variant |
| Ternary.GetInstructionsByIndex | src/main/java/org/apache/sysml/lops/Ternary.java:196-333 | `Invalid` is unsupported; the transform, scalar-weight, histogram and weighted-histogram variants succeed exactly when every input they read as a scalar was passed index -1, and expansion exactly when its third index is -1; a failed check is a lops exception; the instruction carries the variant's opcode, the scalar inputs as scalar operands, the other inputs by index, the output index, and dimensions from the extra inputs when present, else unknown |
| Ternary.ExpandIgnoresSecondIndex | src/main/java/org/apache/sysml/lops/Ternary.java:240-262 | expansion accepts a second index other than -1 and drops it, reading that input as a scalar |
| Ternary.InstructionOpcodeParses | src/main/java/org/apache/sysml/lops/Ternary.java:196-368 | the opcode of every instruction generated from indices parses back to the variant it was generated for |
| Ternary.ClassifiedOperationsCompile | src/main/java/org/apache/sysml/lops/Ternary.java:98-304 | every variant chosen for a matrix-first type triple generates an index-based instruction whenever each scalar-typed input is passed index -1 |
| Ternary.ControlProgramOpcode | src/main/java/org/apache/sysml/lops/Ternary.java:136-139 | the name-based instruction uses `ctableexpand` exactly for expansion and `ctable` for every other variant, `Invalid` included; neither string parses as an index-based opcode |
| Ternary.GetInstructionsByName | src/main/java/org/apache/sysml/lops/Ternary.java:130-194 | the name-based instruction carries a scalar operand exactly for the scalar-typed inputs and the input's name for every other, the output name, and dimensions from the extra inputs when present, else unknown |
| Ternary.InstructionFormsAgreeOnScalars | src/main/java/org/apache/sysml/lops/Ternary.java:130-304 | for the scalar-weight, histogram and weighted-histogram variants, every index-based instruction that is generated and the name-based instruction for any names treat the same inputs as scalars |
| Ternary.TransformFormsDisagreeOnScalarSecondInput | src/main/java/org/apache/sysml/lops/Ternary.java:150-210 | for input types (matrix, scalar, frame) the classifier picks the general transform, whose index-based form reads the second input by index while the name-based form reads it as a scalar |

## Left out

- Spark plumbing is not modelled: the RDD handle, `flatMapToPair`, `groupByKey` and `foreach`. The three stages are abstract steps, and a failure of the distributed job is a parameter. The mapper and reducer classes are not part of this model, so neither are the contents of the partitions.
- Deleting old output from HDFS and writing partitions are I/O. They are steps in a sequence, and a failed delete is a parameter.
- `Statistics` counters and `System.nanoTime` timing are observational global state and are not modelled.
- DetermineNumReducers: does not model the `(int)` narrowing of the result at DataPartitionerRemoteSpark.java lines 73 and 116; values are unbounded integers, assumed to fit in an `int`.
- The `DataPartitioner` base class that holds `_format` and `_n` is not part of this model. Both are fields of the `Partitioner` value.
- The enumeration of partition formats is not part of this model. `Unpartitioned` (the enumeration's NONE) stands for every value the switch leaves to its default branch.
- The `DataType` enumeration is not part of this model either. The ctable logic only tells MATRIX and SCALAR apart.
- `Ternary.init` is not modelled: lop graph wiring, job-type compatibility and execution-location properties belong to compiler infrastructure.
- GetInstructionsByIndex: the instruction is an abstract record (opcode, operand kinds, output dimensions, output). It is not the delimited string built by `prepInputOperand`, `prepScalarInputOperand`, `prepScalarLabel` and `OPERAND_DELIMITOR`. The execution-type prefix and exception messages are left out too.
- GetInstructionsByName: the same abstraction as the index-based generator. The literal flags of the dimension operands and the trailing ignore-zeros flag are left out.
- An operator with exactly four inputs, where reading the fifth input fails, is not modelled: `withDims` says whether both dimension inputs are present. A null operation type is not modelled either.
