/**
 * The segment sizes the generated parser records for an operation with
 * several variable-length operands or results: one entry per operand (or
 * result) in declaration order, the parsed count for a variable-length one
 * and 1 for a fixed-length one, plus the group sizes of each variadic of
 * variadic operand.
 */
module SegmentSizes {
  import opened Wrappers
  import opened OpSchema

  /** One entry of a segment-size list. */
  datatype SegmentSize = ParsedSize(name: string) | FixedOne

  /** Where the generated parser stores the sizes. */
  datatype SegmentStorage = InProperties | AsAttribute

  /** What the generated parser records once the operands and results are parsed. */
  datatype SegmentAction =
    | SetOperandSegmentSizes(storage: SegmentStorage, sizes: seq<SegmentSize>)
    | SetGroupSizes(storage: SegmentStorage, sizeAttr: string, operandName: string)
    | SetResultSegmentSizes(storage: SegmentStorage, sizes: seq<SegmentSize>)

  const AttrSizedOperandSegments := "::mlir::OpTrait::AttrSizedOperandSegments"
  const AttrSizedResultSegments := "::mlir::OpTrait::AttrSizedResultSegments"

  /** The entry of one operand or result. */
  function SizeOf(c: NamedTypeConstraint): SegmentSize {
    if IsVariableLength(c) then ParsedSize(c.name) else FixedOne
  }

  /** The entries of a segment-size list, one per operand or result, in order. */
  function SizesOf(cs: seq<NamedTypeConstraint>): (r: seq<SegmentSize>)
    ensures |r| == |cs|
    ensures forall i :: 0 <= i < |cs| ==> r[i] == SizeOf(cs[i])
  {
    seq(|cs|, i requires 0 <= i < |cs| => SizeOf(cs[i]))
  }

  /** The group-size records of the variadic of variadic operands, in declaration order. */
  function GroupSizesOf(storage: SegmentStorage, cs: seq<NamedTypeConstraint>): (r: seq<SegmentAction>)
    ensures |r| <= |cs|
    decreases |cs|
  {
    if |cs| == 0 then []
    else
      var last := cs[|cs| - 1];
      GroupSizesOf(storage, cs[..|cs| - 1]) +
        (if last.isVariadicOfVariadic then [SetGroupSizes(storage, last.segmentSizeAttr, last.name)] else [])
  }

  /** The group-size records are exactly those of the variadic of variadic operands. */
  lemma {:induction false} GroupSizesMembers(storage: SegmentStorage, cs: seq<NamedTypeConstraint>)
    ensures forall a :: a in GroupSizesOf(storage, cs) <==>
              exists i :: 0 <= i < |cs| && cs[i].isVariadicOfVariadic &&
                          a == SetGroupSizes(storage, cs[i].segmentSizeAttr, cs[i].name)
    decreases |cs|
  {
    if |cs| > 0 {
      var init := cs[..|cs| - 1];
      GroupSizesMembers(storage, init);
      assert forall i :: 0 <= i < |init| ==> init[i] == cs[i];
    }
  }

  /** The records for the operands: sizes under `AttrSizedOperandSegments`, then the group sizes. */
  function OperandRecords(op: Operator, allOperands: bool, storage: SegmentStorage): seq<SegmentAction> {
    if allOperands then []
    else
      (if HasNativeTrait(op, AttrSizedOperandSegments) then [SetOperandSegmentSizes(storage, SizesOf(op.operands))] else []) +
      GroupSizesOf(storage, op.operands)
  }

  /** The record for the results, under `AttrSizedResultSegments`. */
  function ResultRecords(op: Operator, allResultTypes: bool, storage: SegmentStorage): seq<SegmentAction> {
    if !allResultTypes && HasNativeTrait(op, AttrSizedResultSegments) then [SetResultSegmentSizes(storage, SizesOf(op.results))]
    else []
  }

  /** Whether an operation's dialect stores its attributes as properties. */
  function StorageFor(usePropertiesForAttributes: bool): SegmentStorage {
    if usePropertiesForAttributes then InProperties else AsAttribute
  }

  /** `interleaveComma` over the operands or results: the size of each in turn. */
  method GenSizes(cs: seq<NamedTypeConstraint>) returns (sizes: seq<SegmentSize>)
    ensures sizes == SizesOf(cs)
  {
    sizes := [];
    var i := 0;
    while i < |cs|
      invariant 0 <= i <= |cs|
      invariant sizes == SizesOf(cs[..i])
    {
      assert cs[..i + 1][..i] == cs[..i];
      // A variable-length operand records its parsed size, any other one 1.
      if IsVariableLength(cs[i]) {
        sizes := sizes + [ParsedSize(cs[i].name)];
      } else {
        sizes := sizes + [FixedOne];
      }
      i := i + 1;
    }
    assert cs[..i] == cs;
  }

  /** The loop over the operands that records the group sizes of each variadic of variadic one. */
  method GenGroupSizes(storage: SegmentStorage, cs: seq<NamedTypeConstraint>) returns (records: seq<SegmentAction>)
    ensures records == GroupSizesOf(storage, cs)
  {
    records := [];
    var i := 0;
    while i < |cs|
      invariant 0 <= i <= |cs|
      invariant records == GroupSizesOf(storage, cs[..i])
    {
      assert cs[..i + 1][..i] == cs[..i];
      var operand := cs[i];
      if !operand.isVariadicOfVariadic {
        i := i + 1;
        continue;
      }
      records := records + [SetGroupSizes(storage, operand.segmentSizeAttr, operand.name)];
      i := i + 1;
    }
    assert cs[..i] == cs;
  }

  /**
   * `genParserVariadicSegmentResolution`: unless the format binds all
   * operands at once, the operand sizes under `AttrSizedOperandSegments`,
   * then the group sizes of each variadic of variadic operand; and unless
   * it binds all result types at once, the result sizes under
   * `AttrSizedResultSegments`.
   */
  method GenParserVariadicSegmentResolution(op: Operator, allOperands: bool, allResultTypes: bool,
                                            usePropertiesForAttributes: bool)
    returns (records: seq<SegmentAction>)
    ensures records == OperandRecords(op, allOperands, StorageFor(usePropertiesForAttributes)) +
                       ResultRecords(op, allResultTypes, StorageFor(usePropertiesForAttributes))
  {
    var storage := if usePropertiesForAttributes then InProperties else AsAttribute;
    records := [];
    if !allOperands {
      if HasNativeTrait(op, AttrSizedOperandSegments) {
        var sizes := GenSizes(op.operands);
        records := records + [SetOperandSegmentSizes(storage, sizes)];
      }
      var groups := GenGroupSizes(storage, op.operands);
      records := records + groups;
    }
    if !allResultTypes && HasNativeTrait(op, AttrSizedResultSegments) {
      var sizes := GenSizes(op.results);
      records := records + [SetResultSegmentSizes(storage, sizes)];
    }
  }

  /**
   * A fixed-length entry is exactly one whose length kind is `Single`, the
   * kind for which the generated parser binds one value.
   */
  lemma FixedOneIffSingle(cs: seq<NamedTypeConstraint>, i: nat)
    requires i < |cs| && (cs[i].isVariadicOfVariadic ==> cs[i].isVariadic)
    ensures SizesOf(cs)[i] == FixedOne <==> GetArgumentLengthKind(cs[i]) == Single
    ensures SizesOf(cs)[i] != FixedOne ==> SizesOf(cs)[i] == ParsedSize(cs[i].name)
  {
    SingleIffFixedLength(cs[i]);
  }

  /**
   * Read with the number of values parsed for each variable-length
   * operand, the sizes give every operand its own count: with one value
   * for each fixed-length operand, they are exactly the parsed counts
   * (`SizesRecordCounts`).
   */
  function Evaluate(sizes: seq<SegmentSize>, counts: seq<nat>): (r: seq<nat>)
    requires |sizes| == |counts|
    ensures |r| == |sizes|
  {
    seq(|sizes|, i requires 0 <= i < |sizes| => if sizes[i].FixedOne? then 1 else counts[i])
  }

  /** With one value parsed for each fixed-length operand, the sizes are the parsed counts. */
  lemma {:induction false} SizesRecordCounts(cs: seq<NamedTypeConstraint>, counts: seq<nat>)
    requires |counts| == |cs|
    requires forall i :: 0 <= i < |cs| && !IsVariableLength(cs[i]) ==> counts[i] == 1
    ensures Evaluate(SizesOf(cs), counts) == counts
  {
    var r := Evaluate(SizesOf(cs), counts);
    forall i | 0 <= i < |cs|
      ensures r[i] == counts[i]
    {
    }
  }

  /** The group-size records name only variadic of variadic operands, each once, in declaration order. */
  lemma {:induction false} GroupSizesInOrder(storage: SegmentStorage, cs: seq<NamedTypeConstraint>)
    ensures |GroupSizesOf(storage, cs)| == |Filtered(cs)|
    ensures forall k :: 0 <= k < |Filtered(cs)| ==>
              GroupSizesOf(storage, cs)[k] == SetGroupSizes(storage, Filtered(cs)[k].segmentSizeAttr, Filtered(cs)[k].name)
    decreases |cs|
  {
    if |cs| > 0 {
      var init := cs[..|cs| - 1];
      GroupSizesInOrder(storage, init);
    }
  }

  /** The variadic of variadic operands, in declaration order. */
  function Filtered(cs: seq<NamedTypeConstraint>): (r: seq<NamedTypeConstraint>)
    ensures forall k :: 0 <= k < |r| ==> r[k].isVariadicOfVariadic
    decreases |cs|
  {
    if |cs| == 0 then []
    else Filtered(cs[..|cs| - 1]) + (if cs[|cs| - 1].isVariadicOfVariadic then [cs[|cs| - 1]] else [])
  }
}
