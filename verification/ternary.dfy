/** The ternary (ctable) low-level operator: which ctable variant a triple of
    input data types calls for, the opcode of each variant and its inverse,
    and the instruction each variant compiles to from input indices or from
    input names. */
module Ternary {
  import opened Exceptions

  /** The data type of an operator input. Only MATRIX and SCALAR are told
      apart by the ctable logic; the other values behave alike. */
  datatype DataType = Matrix | Scalar | Frame | Object | Unknown

  /** The ctable variants. */
  datatype OperationType =
    | CtableTransform                    // ctable(A, B, W)
    | CtableTransformScalarWeight        // ctable(A, B) or ctable(A, B, 1)
    | CtableTransformHistogram           // ctable(A, 1) or ctable(A, 1, 1)
    | CtableTransformWeightedHistogram   // ctable(A, 1, W)
    | CtableExpandScalarWeight           // ctable(seq, B) or ctable(seq, B, 1)
    | Invalid

  /** The variant for the data types of the three inputs: none unless the
      first input is a matrix; then a scalar weight, a histogram or a weighted
      histogram by which of the other two are scalars, and the general
      transform for every other combination. Expansion is never chosen here. */
  function FindCtableOperation(dt1: DataType, dt2: DataType, dt3: DataType): (op: OperationType)
    ensures op == Invalid <==> dt1 != Matrix
    ensures op != CtableExpandScalarWeight
    ensures op == CtableTransformScalarWeight <==> dt1 == Matrix && dt2 == Matrix && dt3 == Scalar
    ensures op == CtableTransformHistogram <==> dt1 == Matrix && dt2 == Scalar && dt3 == Scalar
    ensures op == CtableTransformWeightedHistogram <==> dt1 == Matrix && dt2 == Scalar && dt3 == Matrix
    ensures op == CtableTransform <==>
              dt1 == Matrix && !(dt2 == Matrix && dt3 == Scalar) && !(dt2 == Scalar && dt3 in {Scalar, Matrix})
  {
    if dt1 == Matrix then
      if dt2 == Matrix && dt3 == Scalar then CtableTransformScalarWeight
      else if dt2 == Scalar && dt3 == Scalar then CtableTransformHistogram
      else if dt2 == Scalar && dt3 == Matrix then CtableTransformWeightedHistogram
      else CtableTransform
    else
      Invalid
  }

  /** The opcodes of the five real variants. */
  const OpTransform := "ctabletransform"
  const OpTransformScalarWeight := "ctabletransformscalarweight"
  const OpExpandScalarWeight := "ctableexpandscalarweight"
  const OpTransformHistogram := "ctabletransformhistogram"
  const OpTransformWeightedHistogram := "ctabletransformweightedhistogram"

  const Opcodes: set<string> :=
    {OpTransform, OpTransformScalarWeight, OpExpandScalarWeight,
     OpTransformHistogram, OpTransformWeightedHistogram}

  /** The opcode of a variant; `Invalid` has none. */
  function GetOpcode(op: OperationType): (r: Result<string>)
    ensures r.Err? <==> op == Invalid
    ensures r.Err? ==> r.error == UnsupportedOperationException
    ensures r.Ok? ==> r.value in Opcodes
  {
    match op
    case CtableTransform => Ok(OpTransform)
    case CtableTransformScalarWeight => Ok(OpTransformScalarWeight)
    case CtableExpandScalarWeight => Ok(OpExpandScalarWeight)
    case CtableTransformHistogram => Ok(OpTransformHistogram)
    case CtableTransformWeightedHistogram => Ok(OpTransformWeightedHistogram)
    case Invalid => Err(UnsupportedOperationException)
  }

  /** The variant an opcode names; any other string is rejected. */
  function GetOperationType(opcode: string): (r: Result<OperationType>)
    ensures r.Err? <==> opcode !in Opcodes
    ensures r.Err? ==> r.error == UnsupportedOperationException
    ensures r.Ok? ==> r.value != Invalid
  {
    if opcode == OpTransform then Ok(CtableTransform)
    else if opcode == OpTransformScalarWeight then Ok(CtableTransformScalarWeight)
    else if opcode == OpExpandScalarWeight then Ok(CtableExpandScalarWeight)
    else if opcode == OpTransformHistogram then Ok(CtableTransformHistogram)
    else if opcode == OpTransformWeightedHistogram then Ok(CtableTransformWeightedHistogram)
    else Err(UnsupportedOperationException)
  }

  /** Parsing the opcode of a real variant gives the variant back. */
  lemma OpcodeRoundTrip(op: OperationType)
    requires op != Invalid
    ensures GetOpcode(op).Ok? && GetOperationType(GetOpcode(op).value) == Ok(op)
  {
  }

  /** Printing the variant of a known opcode gives the opcode back. */
  lemma OperationTypeRoundTrip(opcode: string)
    requires opcode in Opcodes
    ensures GetOperationType(opcode).Ok? && GetOpcode(GetOperationType(opcode).value) == Ok(opcode)
  {
  }

  /** Distinct real variants have distinct opcodes, so the five opcodes are
      five different strings. */
  lemma OpcodeInjective(op: OperationType, op': OperationType)
    requires GetOpcode(op).Ok? && GetOpcode(op') == GetOpcode(op)
    ensures op == op'
  {
    OpcodeRoundTrip(op);
    OpcodeRoundTrip(op');
  }

  /** An operand of a generated instruction: a matrix input by its index or
      name, or a scalar input read from the operator's input at `position`. */
  datatype Operand = Indexed(index: int) | Named(name: string) | ScalarInput(position: nat)

  /** Where the output dimensions come from: the labels of the fourth and fifth
      inputs when the operator has them, else the unknown dimensions -1 and -1. */
  datatype OutputDims = DimsFromInputs | DimsUnknown

  /** A generated instruction, without its execution-type prefix and
      delimiters: opcode, the three input operands, output dimensions and output. */
  datatype Instruction = Instruction(opcode: string, operands: seq<Operand>, dims: OutputDims, output: Operand)

  /** The input positions (counted from 0) each variant expects to be scalars,
      as the ctable forms in the variants' comments show. */
  function ScalarPositions(op: OperationType): set<nat> {
    match op
    case CtableTransformScalarWeight => {2}
    case CtableExpandScalarWeight => {1, 2}
    case CtableTransformHistogram => {1, 2}
    case CtableTransformWeightedHistogram => {1}
    case _ => {}
  }

  function DimsOf(withDims: bool): OutputDims {
    if withDims then DimsFromInputs else DimsUnknown
  }

  /** The instruction for input and output indices; `withDims` says whether the
      operator has the two extra dimension inputs. A scalar input has no index,
      so the variants check that it was passed as -1, except that expansion
      checks only its third input. */
  function GetInstructionsByIndex(op: OperationType, i1: int, i2: int, i3: int, out: int, withDims: bool)
    : (r: Result<Instruction>)
    ensures op == Invalid ==> r == Err(UnsupportedOperationException)
    ensures op != Invalid && r.Err? ==> r.error == LopsException
    ensures op !in {Invalid, CtableExpandScalarWeight} ==>
              (r.Ok? <==> forall k :: k in ScalarPositions(op) ==> [i1, i2, i3][k] == -1)
    ensures op == CtableExpandScalarWeight ==> (r.Ok? <==> i3 == -1)
    ensures r.Ok? ==> GetOpcode(op) == Ok(r.value.opcode)
    ensures r.Ok? ==> (|r.value.operands| == 3 &&
              forall k :: 0 <= k < 3 ==>
                r.value.operands[k] == if k in ScalarPositions(op) then ScalarInput(k) else Indexed([i1, i2, i3][k]))
    ensures r.Ok? ==> r.value.dims == DimsOf(withDims) && r.value.output == Indexed(out)
  {
    var dims, output := DimsOf(withDims), Indexed(out);
    match op
    case CtableTransform =>
      Ok(Instruction(OpTransform, [Indexed(i1), Indexed(i2), Indexed(i3)], dims, output))
    case CtableTransformScalarWeight =>
      if i3 != -1 then assert [i1, i2, i3][2] != -1; Err(LopsException)
      else Ok(Instruction(OpTransformScalarWeight, [Indexed(i1), Indexed(i2), ScalarInput(2)], dims, output))
    case CtableExpandScalarWeight =>
      if i3 != -1 then Err(LopsException)
      else Ok(Instruction(OpExpandScalarWeight, [Indexed(i1), ScalarInput(1), ScalarInput(2)], dims, output))
    case CtableTransformHistogram =>
      if i2 != -1 || i3 != -1 then assert [i1, i2, i3][1] != -1 || [i1, i2, i3][2] != -1; Err(LopsException)
      else Ok(Instruction(OpTransformHistogram, [Indexed(i1), ScalarInput(1), ScalarInput(2)], dims, output))
    case CtableTransformWeightedHistogram =>
      if i2 != -1 then assert [i1, i2, i3][1] != -1; Err(LopsException)
      else Ok(Instruction(OpTransformWeightedHistogram, [Indexed(i1), ScalarInput(1), Indexed(i3)], dims, output))
    case Invalid => Err(UnsupportedOperationException)
  }

  /** Expansion reads its second input as a scalar but does not check that its
      index is -1: a second index of 5 is accepted and dropped. */
  lemma ExpandIgnoresSecondIndex()
    ensures GetInstructionsByIndex(CtableExpandScalarWeight, 0, 5, -1, 3, false).Ok?
    ensures ScalarInput(1) in GetInstructionsByIndex(CtableExpandScalarWeight, 0, 5, -1, 3, false).value.operands
    ensures Indexed(5) !in GetInstructionsByIndex(CtableExpandScalarWeight, 0, 5, -1, 3, false).value.operands
  {
    var r := GetInstructionsByIndex(CtableExpandScalarWeight, 0, 5, -1, 3, false);
    assert r.value.operands == [Indexed(0), ScalarInput(1), ScalarInput(2)];
  }

  /** The runtime can read the variant back from an index-based instruction. */
  lemma InstructionOpcodeParses(op: OperationType, i1: int, i2: int, i3: int, out: int, withDims: bool)
    requires GetInstructionsByIndex(op, i1, i2, i3, out, withDims).Ok?
    ensures GetOperationType(GetInstructionsByIndex(op, i1, i2, i3, out, withDims).value.opcode) == Ok(op)
  {
    OpcodeRoundTrip(op);
  }

  /** Every variant the classifier picks compiles from indices whenever each
      scalar-typed input is passed the index -1: the classifier only makes an
      input a scalar position when that input is a scalar. */
  lemma ClassifiedOperationsCompile(dt1: DataType, dt2: DataType, dt3: DataType,
                                                       i1: int, i2: int, i3: int, out: int, withDims: bool)
    requires dt1 == Matrix
    requires dt2 == Scalar ==> i2 == -1
    requires dt3 == Scalar ==> i3 == -1
    ensures GetInstructionsByIndex(FindCtableOperation(dt1, dt2, dt3), i1, i2, i3, out, withDims).Ok?
  {
    var op := FindCtableOperation(dt1, dt2, dt3);
    assert forall k :: k in ScalarPositions(op) ==> [dt1, dt2, dt3][k] == Scalar;
  }

  /** The opcode of the name-based instruction: expansion has its own, every
      other variant (even `Invalid`) shares the plain ctable opcode. Neither is
      one of the index-based opcodes, so the two instruction forms cannot be
      mistaken for each other. */
  function ControlProgramOpcode(op: OperationType): (s: string)
    ensures s == "ctableexpand" <==> op == CtableExpandScalarWeight
    ensures s == "ctable" <==> op != CtableExpandScalarWeight
    ensures GetOperationType(s).Err?
  {
    if op != CtableExpandScalarWeight then "ctable" else "ctableexpand"
  }

  /** The instruction for input and output names: each input is a scalar
      operand when its data type is scalar and the given name otherwise. */
  function GetInstructionsByName(op: OperationType, types: seq<DataType>, names: seq<string>,
                                 output: string, withDims: bool): (ins: Instruction)
    requires |types| == 3 && |names| == 3
    ensures ins.opcode == ControlProgramOpcode(op)
    ensures |ins.operands| == 3
    ensures forall k :: 0 <= k < 3 ==> (ins.operands[k].ScalarInput? <==> types[k] == Scalar)
    ensures forall k :: 0 <= k < 3 && types[k] != Scalar ==> ins.operands[k] == Named(names[k])
    ensures forall k :: 0 <= k < 3 && types[k] == Scalar ==> ins.operands[k] == ScalarInput(k)
    ensures ins.dims == DimsOf(withDims) && ins.output == Named(output)
  {
    var operands := seq(3, k requires 0 <= k < 3 =>
      if types[k] == Scalar then ScalarInput(k) else Named(names[k]));
    Instruction(ControlProgramOpcode(op), operands, DimsOf(withDims), Named(output))
  }

  /** For the scalar-weight, histogram and weighted-histogram variants the two
      instruction forms agree on which inputs are scalars: exactly the inputs
      the classifier saw as scalars, whatever indices and names the inputs and
      the output have. The general transform is left out because the forms can
      disagree there: for the types (matrix, scalar, frame) the classifier picks
      it, the index-based form reads the second input by its index, and the
      name-based form reads it as a scalar. */
  lemma InstructionFormsAgreeOnScalars(dt1: DataType, dt2: DataType, dt3: DataType, names: seq<string>,
                                       output: string, i1: int, i2: int, i3: int, out: int, withDims: bool)
    requires |names| == 3
    requires FindCtableOperation(dt1, dt2, dt3) in
               {CtableTransformScalarWeight, CtableTransformHistogram, CtableTransformWeightedHistogram}
    requires GetInstructionsByIndex(FindCtableOperation(dt1, dt2, dt3), i1, i2, i3, out, withDims).Ok?
    ensures var op := FindCtableOperation(dt1, dt2, dt3);
            var byIndex := GetInstructionsByIndex(op, i1, i2, i3, out, withDims).value;
            var byName := GetInstructionsByName(op, [dt1, dt2, dt3], names, output, withDims);
            forall k :: 0 <= k < 3 ==> (byIndex.operands[k].ScalarInput? <==> byName.operands[k].ScalarInput?)
  {
    var op := FindCtableOperation(dt1, dt2, dt3);
    var byIndex := GetInstructionsByIndex(op, i1, i2, i3, out, withDims).value;
    var byName := GetInstructionsByName(op, [dt1, dt2, dt3], names, output, withDims);
    forall k | 0 <= k < 3
      ensures byIndex.operands[k].ScalarInput? <==> byName.operands[k].ScalarInput?
    {
      assert [dt1, dt2, dt3][k] == Scalar <==> k in ScalarPositions(op);
      assert byIndex.operands[k].ScalarInput? <==> k in ScalarPositions(op);
      assert byName.operands[k].ScalarInput? <==> [dt1, dt2, dt3][k] == Scalar;
    }
  }

  /** The general transform is where the two forms part: with types (matrix,
      scalar, frame) the index-based form reads the second input by index while
      the name-based form reads it as a scalar. */
  lemma TransformFormsDisagreeOnScalarSecondInput()
    ensures FindCtableOperation(Matrix, Scalar, Frame) == CtableTransform
    ensures GetInstructionsByIndex(CtableTransform, 0, 1, 2, 3, false).Ok?
    ensures GetInstructionsByIndex(CtableTransform, 0, 1, 2, 3, false).value.operands[1] == Indexed(1)
    ensures GetInstructionsByName(CtableTransform, [Matrix, Scalar, Frame], ["a", "b", "c"], "o", false).operands[1]
              == ScalarInput(1)
  {
  }
}
