/**
 * The operation format under construction and the parser that fills it.
 * The parser's binding state lives in its fields (and in the three
 * all-type flags of the format); each parse method updates exactly the
 * fields the corresponding step of the binding model changes, and
 * `Verify` runs the whole-format checks in their order and records the
 * type resolutions, the table of buildable types and the attributes used.
 */
module FormatParser {
  import opened Wrappers
  import opened OpSchema
  import opened FormatElements
  import opened FormatBinding
  import opened FormatResolution
  import opened FormatAmbiguity
  import opened FormatGroups
  import opened FormatVerify
  import opened BuildablePool

  /** `OperationFormat`: what the generator knows about an operation's format once it is parsed. */
  class OperationFormat {
    var allOperands: bool
    var allOperandTypes: bool
    var allResultTypes: bool
    var infersResultTypes: bool
    var hasPropDict: bool
    var buildableTypes: seq<string>
    var operandTypes: seq<TypeResolution>
    var resultTypes: seq<TypeResolution>
    var usedAttributes: seq<nat>
    var inferredAttributes: set<string>
    var usedProperties: seq<nat>

    /**
     * One unresolved entry per operand and per result; no flag set and no
     * buildable type. `hasPropDict` has no initial value until `verify`.
     */
    constructor (op: Operator)
      ensures !allOperands && !allOperandTypes && !allResultTypes && !infersResultTypes
      ensures buildableTypes == [] && usedAttributes == [] && usedProperties == [] && inferredAttributes == {}
      ensures |operandTypes| == |op.operands| && forall i :: 0 <= i < |operandTypes| ==> operandTypes[i] == UNRESOLVED
      ensures |resultTypes| == |op.results| && forall i :: 0 <= i < |resultTypes| ==> resultTypes[i] == UNRESOLVED
    {
      allOperands, allOperandTypes, allResultTypes, infersResultTypes := false, false, false, false;
      buildableTypes, usedAttributes, usedProperties, inferredAttributes := [], [], [], {};
      operandTypes := seq(|op.operands|, _ => UNRESOLVED);
      resultTypes := seq(|op.results|, _ => UNRESOLVED);
    }

    /** The fields `verify` fills in, as a value. */
    function Value(): FormatValue
      reads this
    {
      FormatValue(infersResultTypes, buildableTypes, operandTypes, resultTypes,
                  usedAttributes, inferredAttributes, usedProperties, hasPropDict)
    }
  }

  /** What `verify` records in an operation format. */
  datatype FormatValue = FormatValue(
    infersResultTypes: bool,
    buildableTypes: seq<string>,
    operandTypes: seq<TypeResolution>,
    resultTypes: seq<TypeResolution>,
    usedAttributes: seq<nat>,
    inferredAttributes: set<string>,
    usedProperties: seq<nat>,
    hasPropDict: bool)

  /** The check of `verify` that rejects a format, in the order they are made. */
  datatype Stage =
    | AttrDictStage | ColonTypeStage | AttrDictRegionStage
    | ResultsStage | OperandsStage | RegionsStage | SuccessorsStage | OIListStage

  /** Whether some decision fails. */
  predicate AnyError(ds: seq<TypeDecision>) {
    exists i :: 0 <= i < |ds| && IsError(ds[i])
  }

  /** Whether `verifyResults` checks each result (rather than accepting all types as bound or inferred). */
  predicate ChecksEachResult(op: Operator, b: Bindings, canInfer: bool) {
    !b.allResultTypes && !InfersResultTypes(op, b, canInfer)
  }

  /** The first check of `verify` that fails for a parsed format, if any. */
  function FailingStage(op: Operator, b: Bindings, canInfer: bool, elements: seq<Element>): Option<Stage> {
    if !b.hasAttrDict then Some(AttrDictStage)
    else if VerifyAttributeColonType(elements).Fail? then Some(ColonTypeStage)
    else if VerifyAttrDictRegion(elements).Fail? then Some(AttrDictRegionStage)
    else if TypesStage(op, b, canInfer).Some? then TypesStage(op, b, canInfer)
    else CoverageStage(op, b, elements)
  }

  /** The first of the result and operand checks that fails, if any. */
  function TypesStage(op: Operator, b: Bindings, canInfer: bool): Option<Stage> {
    var m := ResolverMapOf(op, b);
    TypesStageOf(ChecksEachResult(op, b, canInfer), ResultDecisions(op, b, m), OperandDecisions(op, b, m))
  }

  /** The first failing check over the decisions: the results (when each is checked), then the operands. */
  function TypesStageOf(checksEach: bool, rds: seq<TypeDecision>, ods: seq<TypeDecision>): Option<Stage> {
    if checksEach && AnyError(rds) then Some(ResultsStage)
    else if AnyError(ods) then Some(OperandsStage)
    else None
  }

  /** The first of the region, successor and oilist checks that fails, if any. */
  function CoverageStage(op: Operator, b: Bindings, elements: seq<Element>): Option<Stage> {
    if !b.hasAllRegions && exists i :: 0 <= i < |op.regions| && i !in b.seenRegions then Some(RegionsStage)
    else if !b.hasAllSuccessors && exists i :: 0 <= i < |op.successors| && i !in b.seenSuccessors then Some(SuccessorsStage)
    else if exists i :: 0 <= i < |elements| && CollidesAt(elements, i) then Some(OIListStage)
    else None
  }

  /** The buildable-type table once the results are checked. */
  function PoolAfterResults(checksEach: bool, rds: seq<TypeDecision>, pool: seq<string>): seq<string> {
    if checksEach then InsertAll(pool, BuilderCalls(rds)) else pool
  }

  /** `OpFormatParser`: the binding state of one format being parsed for `op`, recorded into `fmt`. */
  class OpFormatParser {
    const fmt: OperationFormat
    const op: Operator

    var hasAttrDict: bool
    var hasPropDict: bool
    var hasAllRegions: bool
    var hasAllSuccessors: bool
    var canInferResultTypes: bool
    var seenOperandTypes: set<nat>
    var seenResultTypes: set<nat>
    var seenAttrs: seq<nat>
    var seenOperands: set<nat>
    var seenRegions: set<nat>
    var seenSuccessors: set<nat>
    var seenProperties: seq<nat>

    /** The binding state: the parser's fields and the all-forms the format records. */
    function State(): Bindings
      reads this`hasAttrDict, this`hasPropDict, this`hasAllRegions, this`hasAllSuccessors,
            this`seenAttrs, this`seenProperties, this`seenOperands, this`seenRegions, this`seenSuccessors,
            this`seenOperandTypes, this`seenResultTypes, fmt`allOperands, fmt`allOperandTypes, fmt`allResultTypes
    {
      Bindings(hasAttrDict, hasPropDict, hasAllRegions, hasAllSuccessors,
               fmt.allOperands, fmt.allOperandTypes, fmt.allResultTypes,
               seenAttrs, seenProperties, seenOperands, seenRegions, seenSuccessors,
               seenOperandTypes, seenResultTypes)
    }

    /** The state never records an argument the operator lacks, nor an all-form beside a single binding. */
    ghost predicate Valid()
      reads this, fmt
    {
      Consistent(op, State())
    }

    /** A fresh parser: nothing seen yet; the all-forms are whatever the format holds. */
    constructor (format: OperationFormat, op: Operator)
      ensures this.fmt == format && this.op == op && !canInferResultTypes
      ensures State() == InitialBindings().(allOperands := format.allOperands,
                                            allOperandTypes := format.allOperandTypes,
                                            allResultTypes := format.allResultTypes)
    {
      this.fmt := format;
      this.op := op;
      hasAttrDict, hasPropDict, hasAllRegions, hasAllSuccessors, canInferResultTypes := false, false, false, false, false;
      seenOperandTypes, seenResultTypes := {}, {};
      seenAttrs, seenProperties := [], [];
      seenOperands, seenRegions, seenSuccessors := {}, {}, {};
    }

    /** `parseVariableImpl`: resolves `$name` in probing order and binds or checks it. */
    method ParseVariableImpl(name: string, ctx: Context) returns (r: Result<Element, FormatError>)
      requires Valid()
      modifies this`seenAttrs, this`seenProperties, this`seenOperands, this`seenRegions, this`seenSuccessors
      ensures Valid()
      ensures r == ParseVariable(op, old(State()), name, ctx).result
      ensures State() == ParseVariable(op, old(State()), name, ctx).next
    {
      VariableKeepsConsistent(op, State(), name, ctx);
      var attr := FindArg(AttributeNames(op.attributes), name);
      if attr.Some? {
        r := BindAttributeVar(attr.value, name, ctx);
        return;
      }
      var property := FindArg(PropertyNames(op.properties), name);
      if property.Some? {
        r := BindPropertyVar(property.value, name, ctx);
        return;
      }
      var operand := FindArg(ConstraintNames(op.operands), name);
      if operand.Some? {
        r := BindOperandVar(operand.value, name, ctx);
        return;
      }
      var region := FindArg(RegionNames(op.regions), name);
      if region.Some? {
        r := BindRegionVar(region.value, name, ctx);
        return;
      }
      var result := FindArg(ConstraintNames(op.results), name);
      if result.Some? {
        var i := result.value;
        if ctx != TypeDirectiveContext {
          return Failure(ResultOutsideTypeDirective(name));
        }
        return Success(ResultVar(i, op.results[i]));
      }
      var successor := FindArg(SuccessorNames(op.successors), name);
      if successor.Some? {
        r := BindSuccessorVar(successor.value, name, ctx);
        return;
      }
      return Failure(UnknownVariable(name));
    }

    /** The attribute branch of `parseVariableImpl`. */
    method BindAttributeVar(i: nat, name: string, ctx: Context) returns (r: Result<Element, FormatError>)
      requires i < |op.attributes|
      modifies this`seenAttrs
      ensures r == BindAttribute(op, old(State()), i, name, ctx).result
      ensures State() == BindAttribute(op, old(State()), i, name, ctx).next
    {
      if ctx == TypeDirectiveContext {
        return Failure(VariableInTypeDirective(AttributeArg, name));
      }
      if ctx == RefDirectiveContext {
        if i !in seenAttrs {
          return Failure(NotBoundBeforeReference(AttributeArg, name));
        }
      } else if i in seenAttrs {
        return Failure(AlreadyBound(AttributeArg, name));
      } else {
        seenAttrs := seenAttrs + [i];
      }
      return Success(AttributeVar(i, op.attributes[i], false));
    }

    /** The property branch of `parseVariableImpl`. */
    method BindPropertyVar(i: nat, name: string, ctx: Context) returns (r: Result<Element, FormatError>)
      requires i < |op.properties|
      modifies this`seenProperties
      ensures r == BindProperty(op, old(State()), i, name, ctx).result
      ensures State() == BindProperty(op, old(State()), i, name, ctx).next
    {
      if ctx == TypeDirectiveContext {
        return Failure(VariableInTypeDirective(PropertyArg, name));
      }
      if ctx == RefDirectiveContext {
        if i !in seenProperties {
          return Failure(NotBoundBeforeReference(PropertyArg, name));
        }
      } else if i in seenProperties {
        return Failure(AlreadyBound(PropertyArg, name));
      } else {
        seenProperties := seenProperties + [i];
      }
      return Success(PropertyVar(i, op.properties[i]));
    }

    /** The operand branch of `parseVariableImpl`; `operands` already used counts as bound. */
    method BindOperandVar(i: nat, name: string, ctx: Context) returns (r: Result<Element, FormatError>)
      requires i < |op.operands|
      modifies this`seenOperands
      ensures r == BindOperand(op, old(State()), i, name, ctx).result
      ensures State() == BindOperand(op, old(State()), i, name, ctx).next
    {
      if ctx == TopLevelContext || ctx == CustomDirectiveContext {
        if fmt.allOperands || i in seenOperands {
          return Failure(AlreadyBound(OperandArg, name));
        }
        seenOperands := seenOperands + {i};
      } else if ctx == RefDirectiveContext && i !in seenOperands {
        return Failure(NotBoundBeforeReference(OperandArg, name));
      }
      return Success(OperandVar(i, op.operands[i]));
    }

    /** The region branch of `parseVariableImpl`. */
    method BindRegionVar(i: nat, name: string, ctx: Context) returns (r: Result<Element, FormatError>)
      requires i < |op.regions|
      modifies this`seenRegions
      ensures r == BindRegion(op, old(State()), i, name, ctx).result
      ensures State() == BindRegion(op, old(State()), i, name, ctx).next
    {
      if ctx == TopLevelContext || ctx == CustomDirectiveContext {
        if hasAllRegions || i in seenRegions {
          return Failure(AlreadyBound(RegionArg, name));
        }
        seenRegions := seenRegions + {i};
      } else if ctx == RefDirectiveContext {
        if i !in seenRegions {
          return Failure(NotBoundBeforeReference(RegionArg, name));
        }
      } else {
        return Failure(VariableOutsideTopLevelOrRef(RegionArg, name));
      }
      return Success(RegionVar(i, op.regions[i]));
    }

    /** The successor branch of `parseVariableImpl`. */
    method BindSuccessorVar(i: nat, name: string, ctx: Context) returns (r: Result<Element, FormatError>)
      requires i < |op.successors|
      modifies this`seenSuccessors
      ensures r == BindSuccessor(op, old(State()), i, name, ctx).result
      ensures State() == BindSuccessor(op, old(State()), i, name, ctx).next
    {
      if ctx == TopLevelContext || ctx == CustomDirectiveContext {
        if hasAllSuccessors || i in seenSuccessors {
          return Failure(AlreadyBound(SuccessorArg, name));
        }
        seenSuccessors := seenSuccessors + {i};
      } else if ctx == RefDirectiveContext {
        if i !in seenSuccessors {
          return Failure(NotBoundBeforeReference(SuccessorArg, name));
        }
      } else {
        return Failure(VariableOutsideTopLevelOrRef(SuccessorArg, name));
      }
      return Success(SuccessorVar(i, op.successors[i]));
    }

    /** `parseAttrDictDirective`. */
    method ParseAttrDict(ctx: Context, withKeyword: bool) returns (r: Result<Element, FormatError>)
      requires Valid()
      modifies this`hasAttrDict
      ensures Valid()
      ensures r == ParseAttrDictDirective(old(State()), ctx, withKeyword).result
      ensures State() == ParseAttrDictDirective(old(State()), ctx, withKeyword).next
    {
      if ctx == TypeDirectiveContext {
        return Failure(AttrDictNotTopLevel);
      }
      if ctx == RefDirectiveContext {
        if !hasAttrDict {
          return Failure(AttrDictRefUnbound);
        }
      } else {
        if hasAttrDict {
          return Failure(AttrDictAlreadySeen);
        }
        hasAttrDict := true;
      }
      return Success(AttrDictDir(withKeyword));
    }

    /** `parsePropDictDirective`. */
    method ParsePropDict(ctx: Context) returns (r: Result<Element, FormatError>)
      requires Valid()
      modifies this`hasPropDict
      ensures Valid()
      ensures r == ParsePropDictDirective(old(State()), ctx).result
      ensures State() == ParsePropDictDirective(old(State()), ctx).next
    {
      if ctx == TypeDirectiveContext {
        return Failure(PropDictNotTopLevel);
      }
      if ctx == RefDirectiveContext {
        return Failure(PropDictRefUnsupported);
      }
      if hasPropDict {
        return Failure(PropDictAlreadySeen);
      }
      hasPropDict := true;
      return Success(PropDictDir);
    }

    /** `parseOperandsDirective`. */
    method ParseOperands(ctx: Context) returns (r: Result<Element, FormatError>)
      requires Valid()
      modifies fmt`allOperands
      ensures Valid()
      ensures r == ParseOperandsDirective(old(State()), ctx).result
      ensures State() == ParseOperandsDirective(old(State()), ctx).next
    {
      if ctx == RefDirectiveContext {
        if !fmt.allOperands {
          return Failure(OperandsRefUnbound);
        }
      } else if ctx == TopLevelContext || ctx == CustomDirectiveContext {
        if fmt.allOperands || seenOperands != {} {
          return Failure(OperandsOverlap);
        }
        fmt.allOperands := true;
      }
      return Success(OperandsDir);
    }

    /** `parseRegionsDirective`. */
    method ParseRegions(ctx: Context) returns (r: Result<Element, FormatError>)
      requires Valid()
      modifies this`hasAllRegions
      ensures Valid()
      ensures r == ParseRegionsDirective(old(State()), ctx).result
      ensures State() == ParseRegionsDirective(old(State()), ctx).next
    {
      if ctx == TypeDirectiveContext {
        return Failure(RegionsNotTopLevel);
      }
      if ctx == RefDirectiveContext {
        if !hasAllRegions {
          return Failure(RegionsRefUnbound);
        }
      } else {
        if hasAllRegions || seenRegions != {} {
          return Failure(RegionsOverlap);
        }
        hasAllRegions := true;
      }
      return Success(RegionsDir);
    }

    /** `parseResultsDirective`: only a child of `type`; binds nothing. */
    method ParseResults(ctx: Context) returns (r: Result<Element, FormatError>)
      ensures r == ParseResultsDirective(State(), ctx).result
      ensures r.Success? <==> ctx == TypeDirectiveContext
    {
      if ctx != TypeDirectiveContext {
        return Failure(ResultsOutsideTypeDirective);
      }
      return Success(ResultsDir);
    }

    /** `parseSuccessorsDirective`. */
    method ParseSuccessors(ctx: Context) returns (r: Result<Element, FormatError>)
      requires Valid()
      modifies this`hasAllSuccessors
      ensures Valid()
      ensures r == ParseSuccessorsDirective(old(State()), ctx).result
      ensures State() == ParseSuccessorsDirective(old(State()), ctx).next
    {
      if ctx == TypeDirectiveContext {
        return Failure(SuccessorsNotTopLevel);
      }
      if ctx == RefDirectiveContext {
        if !hasAllSuccessors {
          return Failure(SuccessorsRefUnbound);
        }
      } else {
        if hasAllSuccessors || seenSuccessors != {} {
          return Failure(SuccessorsOverlap);
        }
        hasAllSuccessors := true;
      }
      return Success(SuccessorsDir);
    }

    /** `parseTypeDirectiveOperand`, given the element parsed inside the `type` directive. */
    method ParseTypeOperand(element: Element, isRefChild: bool) returns (r: Result<Element, FormatError>)
      requires Valid() && RefersInto(op, element)
      modifies this`seenOperandTypes, this`seenResultTypes, fmt`allOperandTypes, fmt`allResultTypes
      ensures Valid()
      ensures r == ParseTypeDirectiveOperand(old(State()), element, isRefChild).result
      ensures State() == ParseTypeDirectiveOperand(old(State()), element, isRefChild).next
    {
      TypeOperandKeepsConsistent(op, State(), element, isRefChild);
      match element {
        case Literal(_) =>
          return Failure(TypeOperandIsLiteral);
        case OperandVar(_, _) =>
          r := BindOperandTypeVar(element, isRefChild);
          return;
        case ResultVar(_, _) =>
          r := BindResultTypeVar(element, isRefChild);
          return;
        case OperandsDir =>
          if !isRefChild && (fmt.allOperandTypes || seenOperandTypes != {}) {
            return Failure(OperandsTypeAlreadyBound);
          }
          if isRefChild && !fmt.allOperandTypes {
            return Failure(OperandsTypeRefUnbound);
          }
          fmt.allOperandTypes := true;
        case ResultsDir =>
          if !isRefChild && (fmt.allResultTypes || seenResultTypes != {}) {
            return Failure(ResultsTypeAlreadyBound);
          }
          if isRefChild && !fmt.allResultTypes {
            return Failure(ResultsTypeRefUnbound);
          }
          fmt.allResultTypes := true;
        case _ =>
          return Failure(InvalidTypeArgument);
      }
      return Success(element);
    }

    /** The operand-variable branch of `parseTypeDirectiveOperand`. */
    method BindOperandTypeVar(element: Element, isRefChild: bool) returns (r: Result<Element, FormatError>)
      requires element.OperandVar?
      modifies this`seenOperandTypes
      ensures r == BindOperandType(old(State()), element, isRefChild).result
      ensures State() == BindOperandType(old(State()), element, isRefChild).next
    {
      var idx := element.operandIndex;
      if !isRefChild && (fmt.allOperandTypes || idx in seenOperandTypes) {
        return Failure(TypeAlreadyBound(element.operand.name));
      }
      if isRefChild && !(fmt.allOperandTypes || idx in seenOperandTypes) {
        return Failure(TypeRefUnbound(element.operand.name));
      }
      seenOperandTypes := seenOperandTypes + {idx};
      return Success(element);
    }

    /** The result-variable branch of `parseTypeDirectiveOperand`. */
    method BindResultTypeVar(element: Element, isRefChild: bool) returns (r: Result<Element, FormatError>)
      requires element.ResultVar?
      modifies this`seenResultTypes
      ensures r == BindResultType(old(State()), element, isRefChild).result
      ensures State() == BindResultType(old(State()), element, isRefChild).next
    {
      var idx := element.resultIndex;
      if !isRefChild && (fmt.allResultTypes || idx in seenResultTypes) {
        return Failure(TypeAlreadyBound(element.result.name));
      }
      if isRefChild && !(fmt.allResultTypes || idx in seenResultTypes) {
        return Failure(TypeRefUnbound(element.result.name));
      }
      seenResultTypes := seenResultTypes + {idx};
      return Success(element);
    }

    /** `parseTypeDirective`, given the element parsed as its operand. */
    method ParseType(ctx: Context, operand: Element) returns (r: Result<Element, FormatError>)
      requires Valid() && RefersInto(op, operand)
      modifies this`seenOperandTypes, this`seenResultTypes, fmt`allOperandTypes, fmt`allResultTypes
      ensures Valid()
      ensures r == ParseTypeDirective(old(State()), ctx, operand).result
      ensures State() == ParseTypeDirective(old(State()), ctx, operand).next
    {
      if ctx == TypeDirectiveContext {
        return Failure(TypeInsideTypeDirective);
      }
      var t := ParseTypeOperand(operand, ctx == RefDirectiveContext);
      if t.Failure? {
        return t;
      }
      return Success(TypeDir(operand, false));
    }

    /** `parseFunctionalTypeDirective`, given its two parsed operands. */
    method ParseFunctionalType(ctx: Context, inputs: Element, results: Element) returns (r: Result<Element, FormatError>)
      requires Valid() && RefersInto(op, inputs) && RefersInto(op, results)
      modifies this`seenOperandTypes, this`seenResultTypes, fmt`allOperandTypes, fmt`allResultTypes
      ensures Valid()
      ensures r == ParseFunctionalTypeDirective(old(State()), ctx, inputs, results).result
      ensures State() == ParseFunctionalTypeDirective(old(State()), ctx, inputs, results).next
    {
      if ctx != TopLevelContext {
        return Failure(FunctionalTypeNotTopLevel);
      }
      var i := ParseTypeOperand(inputs, false);
      if i.Failure? {
        return i;
      }
      var t := ParseTypeOperand(results, false);
      if t.Failure? {
        return t;
      }
      return Success(FunctionalTypeDir(inputs, results));
    }

    /** `verifyAttributes`: the two ambiguity scans, then the group sizes of the bound operands are inferred. */
    method VerifyAttributes(b: Bindings, elements: seq<Element>) returns (r: Outcome<FormatError>)
      requires b == State()
      modifies fmt`inferredAttributes
      ensures VerifyAttributeColonType(elements).Fail? ==> r == VerifyAttributeColonType(elements)
      ensures VerifyAttributeColonType(elements).Pass? ==> r == VerifyAttrDictRegion(elements)
      ensures fmt.inferredAttributes == old(fmt.inferredAttributes) + (if r.Pass? then InferredAttributes(op, b) else {})
    {
      r := VerifyAttributeColonType(elements);
      if r.Fail? {
        return;
      }
      r := VerifyAttrDictRegion(elements);
      if r.Fail? {
        return;
      }
      fmt.inferredAttributes := CollectInferredAttributes(op, b, fmt.inferredAttributes);
    }

    /**
     * `verify`: the checks in order, failing at the first that fails. On
     * success the format records the type resolutions, the buildable-type
     * table, the inferred and used attributes and properties, and whether
     * `prop-dict` was used.
     */
    method Verify(elements: seq<Element>) returns (r: Outcome<FormatError>)
      requires |fmt.operandTypes| == |op.operands| && |fmt.resultTypes| == |op.results|
      requires NoDuplicates(fmt.buildableTypes)
      modifies this`canInferResultTypes, fmt`inferredAttributes, fmt`infersResultTypes, fmt`buildableTypes,
               fmt`operandTypes, fmt`resultTypes, fmt`usedAttributes, fmt`usedProperties, fmt`hasPropDict
      ensures canInferResultTypes == (old(canInferResultTypes) || (old(hasAttrDict) && DeclaresInferType(op)))
      ensures VerifyOutcome(op, old(State()), canInferResultTypes, elements, r)
      ensures r.Pass? ==> fmt.Value() == VerifiedValue(op, old(State()), canInferResultTypes, old(fmt.Value()))
    {
      var b := State();
      if !hasAttrDict {
        r := Fail(AttrDictMissing);
        RejectedWithoutAttrDict(op, b, canInferResultTypes, elements);
        return;
      }
      var m, canInfer := BuildResolvers(op, b);
      var inferring := canInferResultTypes || canInfer;
      r := VerifyElements(b, m, inferring, elements);
      canInferResultTypes := inferring;
    }

    /** The checks of `verify` after the resolvers are built, and the recording of a successful result. */
    method VerifyElements(b: Bindings, m: ResolverMap, canInfer: bool, elements: seq<Element>) returns (r: Outcome<FormatError>)
      requires b == State() && b.hasAttrDict
      requires IsResolverMap(op, b, m)
      requires |fmt.operandTypes| == |op.operands| && |fmt.resultTypes| == |op.results|
      requires NoDuplicates(fmt.buildableTypes)
      modifies fmt`inferredAttributes, fmt`infersResultTypes, fmt`buildableTypes,
               fmt`operandTypes, fmt`resultTypes, fmt`usedAttributes, fmt`usedProperties, fmt`hasPropDict
      ensures VerifyOutcome(op, b, canInfer, elements, r)
      ensures r.Pass? ==> fmt.Value() == VerifiedValue(op, b, canInfer, old(fmt.Value()))
    {
      ghost var before := fmt.Value();
      r := VerifyAttributes(b, elements);
      if r.Fail? {
        AttributesDecide(op, b, canInfer, elements, r);
        return;
      }
      r := VerifyTypes(b, m, canInfer);
      if r.Fail? {
        TypesDecide(op, b, canInfer, elements, r);
        return;
      }
      r := VerifyCoverage(op, b, elements);
      CoverageDecides(op, b, canInfer, elements, r);
      if r.Fail? {
        return;
      }
      fmt.usedAttributes := seenAttrs;
      fmt.usedProperties := seenProperties;
      fmt.hasPropDict := hasPropDict;
      RecordedIsVerifiedValue(op, b, canInfer, before, fmt.Value());
    }

    /** `verifyResults` then `verifyOperands`, recording into the format. */
    method VerifyTypes(b: Bindings, m: ResolverMap, canInfer: bool) returns (r: Outcome<FormatError>)
      requires IsResolverMap(op, b, m)
      requires |fmt.operandTypes| == |op.operands| && |fmt.resultTypes| == |op.results|
      requires NoDuplicates(fmt.buildableTypes)
      modifies fmt`infersResultTypes, fmt`buildableTypes, fmt`operandTypes, fmt`resultTypes
      ensures r.Pass? <==> TypesStage(op, b, canInfer).None?
      ensures TypesStage(op, b, canInfer).Some? ==> TypesError(op, b, TypesStage(op, b, canInfer).value, r)
      ensures r.Pass? ==> TypesRecorded(op, b, canInfer,
                                        old(fmt.buildableTypes), old(fmt.operandTypes), old(fmt.resultTypes), old(fmt.infersResultTypes),
                                        fmt.buildableTypes, fmt.operandTypes, fmt.resultTypes, fmt.infersResultTypes)
    {
      var infers, pool, operandTypes, resultTypes;
      r, infers, pool, operandTypes, resultTypes :=
        CheckTypes(op, b, m, canInfer, fmt.buildableTypes, fmt.operandTypes, fmt.resultTypes, fmt.infersResultTypes);
      fmt.infersResultTypes, fmt.buildableTypes, fmt.operandTypes, fmt.resultTypes := infers, pool, operandTypes, resultTypes;
    }
  }

  /** `verifyResults` then `verifyOperands` on the format's values. */
  method CheckTypes(op: Operator, b: Bindings, m: ResolverMap, canInfer: bool, pool: seq<string>,
                    operandTypes: seq<TypeResolution>, resultTypes: seq<TypeResolution>, infers: bool)
    returns (r: Outcome<FormatError>, infers': bool, pool': seq<string>, operandTypes': seq<TypeResolution>, resultTypes': seq<TypeResolution>)
    requires IsResolverMap(op, b, m)
    requires |operandTypes| == |op.operands| && |resultTypes| == |op.results| && NoDuplicates(pool)
    ensures r.Pass? <==> TypesStage(op, b, canInfer).None?
    ensures TypesStage(op, b, canInfer).Some? ==> TypesError(op, b, TypesStage(op, b, canInfer).value, r)
    ensures r.Pass? ==> TypesRecorded(op, b, canInfer, pool, operandTypes, resultTypes, infers,
                                      pool', operandTypes', resultTypes', infers')
  {
    DecisionsAgree(op, b, m, ResolverMapOf(op, b));
    var inferring, r1, pool1;
    r1, inferring, pool1, resultTypes' := VerifyResults(op, b, m, canInfer, pool, resultTypes);
    infers' := infers || inferring;
    r, pool', operandTypes' := r1, pool1, operandTypes;
    if r1.Pass? {
      r, pool', operandTypes' := VerifyOperands(op, b, m, pool1, operandTypes);
    }
    ResultDecisionsCannotMiss(op, b, m);
    TypesInOrder(ChecksEachResult(op, b, canInfer), ResultDecisions(op, b, m), OperandDecisions(op, b, m),
                 pool, operandTypes, resultTypes, r1, pool1, resultTypes', r, pool', operandTypes');
  }

  /** No result is reported as missing from the format: only its type can be. */
  lemma ResultDecisionsCannotMiss(op: Operator, b: Bindings, m: ResolverMap)
    ensures forall i :: 0 <= i < |ResultDecisions(op, b, m)| ==> !ResultDecisions(op, b, m)[i].MissingOperand?
  {
  }

  /**
   * The results checked in order (or not at all), then the operands in
   * order: the first failing check decides the error, and a success
   * records both in turn.
   */
  lemma TypesInOrder(checksEach: bool, rds: seq<TypeDecision>, ods: seq<TypeDecision>,
                     pool: seq<string>, operandTypes: seq<TypeResolution>, resultTypes: seq<TypeResolution>,
                     r1: Outcome<FormatError>, pool1: seq<string>, resultTypes': seq<TypeResolution>,
                     r: Outcome<FormatError>, pool': seq<string>, operandTypes': seq<TypeResolution>)
    requires forall i :: 0 <= i < |rds| ==> !rds[i].MissingOperand?
    requires !checksEach ==> r1.Pass? && pool1 == pool && resultTypes' == resultTypes
    requires checksEach ==> CheckedInOrder(rds, resultTypes, resultTypes', pool, pool1, r1, false)
    requires r1.Fail? ==> r == r1
    requires r1.Pass? ==> CheckedInOrder(ods, operandTypes, operandTypes', pool1, pool', r, true)
    ensures r.Pass? <==> TypesStageOf(checksEach, rds, ods).None?
    ensures TypesStageOf(checksEach, rds, ods).Some? ==> TypesErrorOf(rds, ods, TypesStageOf(checksEach, rds, ods).value, r)
    ensures r.Pass? ==> TypesRecordedOf(checksEach, rds, ods, pool, operandTypes, resultTypes, pool', operandTypes', resultTypes')
  {
    if checksEach && r1.Fail? {
      var i: nat :| FirstErrorAt(rds, i) && r1.error == DecisionError(rds[i], i, false);
      assert r == Fail(ResultTypeNotFound(i));
    }
    if r.Pass? {
      if checksEach {
        ResolvedUpToIsResolvedAll(rds, resultTypes, resultTypes', pool1);
      }
      ResolvedUpToIsResolvedAll(ods, operandTypes, operandTypes', pool');
    }
  }

  /** The error a failing result or operand check reports: that of the first failing one. */
  ghost predicate TypesError(op: Operator, b: Bindings, stage: Stage, r: Outcome<FormatError>) {
    var m := ResolverMapOf(op, b);
    TypesErrorOf(ResultDecisions(op, b, m), OperandDecisions(op, b, m), stage, r)
  }

  ghost predicate TypesErrorOf(rds: seq<TypeDecision>, ods: seq<TypeDecision>, stage: Stage, r: Outcome<FormatError>) {
    && (stage == ResultsStage ==> exists i: nat :: FirstErrorAt(rds, i) && r == Fail(ResultTypeNotFound(i)))
    && (stage == OperandsStage ==> exists i: nat :: FirstErrorAt(ods, i) && r == Fail(DecisionError(ods[i], i, true)))
  }

  /** The error a failing region, successor or oilist check reports. */
  predicate CoverageError(op: Operator, b: Bindings, stage: Stage, r: Outcome<FormatError>) {
    && (stage == RegionsStage ==>
          exists i :: 0 <= i < |op.regions| && i !in b.seenRegions && r == Fail(RegionNotFound(i)) &&
                      forall j :: 0 <= j < i ==> j in b.seenRegions)
    && (stage == SuccessorsStage ==>
          exists i :: 0 <= i < |op.successors| && i !in b.seenSuccessors && r == Fail(SuccessorNotFound(i)) &&
                      forall j :: 0 <= j < i ==> j in b.seenSuccessors)
    && (stage == OIListStage ==> r.Fail? && (r.error.OIListLiteralRepeated? || r.error.LiteralAfterOIList?))
  }

  /** `verify` accepts exactly when no check fails, and otherwise reports the first failing check's error. */
  ghost predicate VerifyOutcome(op: Operator, b: Bindings, canInfer: bool, elements: seq<Element>, r: Outcome<FormatError>) {
    && (r.Pass? <==> FailingStage(op, b, canInfer, elements).None?)
    && (FailingStage(op, b, canInfer, elements).Some? ==>
          RejectedAs(op, b, elements, FailingStage(op, b, canInfer, elements).value, r))
  }

  /** With `attr-dict` present, a failing attribute scan decides the outcome. */
  lemma AttributesDecide(op: Operator, b: Bindings, canInfer: bool, elements: seq<Element>, r: Outcome<FormatError>)
    requires b.hasAttrDict && r.Fail?
    requires VerifyAttributeColonType(elements).Fail? ==> r == VerifyAttributeColonType(elements)
    requires VerifyAttributeColonType(elements).Pass? ==> r == VerifyAttrDictRegion(elements)
    ensures VerifyOutcome(op, b, canInfer, elements, r)
  {
  }

  /** Once the attribute scans pass, a failing type check decides the outcome. */
  lemma TypesDecide(op: Operator, b: Bindings, canInfer: bool, elements: seq<Element>, r: Outcome<FormatError>)
    requires b.hasAttrDict && r.Fail?
    requires VerifyAttributeColonType(elements).Pass? && VerifyAttrDictRegion(elements).Pass?
    requires r.Pass? <==> TypesStage(op, b, canInfer).None?
    requires TypesStage(op, b, canInfer).Some? ==> TypesError(op, b, TypesStage(op, b, canInfer).value, r)
    ensures VerifyOutcome(op, b, canInfer, elements, r)
  {
  }

  /** Once the attribute scans and the type checks pass, the coverage checks decide the outcome. */
  lemma CoverageDecides(op: Operator, b: Bindings, canInfer: bool, elements: seq<Element>, r: Outcome<FormatError>)
    requires b.hasAttrDict
    requires VerifyAttributeColonType(elements).Pass? && VerifyAttrDictRegion(elements).Pass?
    requires TypesStage(op, b, canInfer).None?
    requires r.Pass? <==> CoverageStage(op, b, elements).None?
    requires CoverageStage(op, b, elements).Some? ==> CoverageError(op, b, CoverageStage(op, b, elements).value, r)
    ensures VerifyOutcome(op, b, canInfer, elements, r)
  {
  }

  /** The type checks' records, with the inferred group sizes added and the parser's uses copied, are the verified value. */
  lemma RecordedIsVerifiedValue(op: Operator, b: Bindings, canInfer: bool, before: FormatValue, after: FormatValue)
    requires TypesRecorded(op, b, canInfer,
                           before.buildableTypes, before.operandTypes, before.resultTypes, before.infersResultTypes,
                           after.buildableTypes, after.operandTypes, after.resultTypes, after.infersResultTypes)
    requires after.inferredAttributes == before.inferredAttributes + InferredAttributes(op, b)
    requires after.usedAttributes == b.seenAttrs && after.usedProperties == b.seenProperties
    requires after.hasPropDict == b.hasPropDict
    ensures after == VerifiedValue(op, b, canInfer, before)
  {
  }

  /** Without `attr-dict` the format is rejected before any other check. */
  lemma RejectedWithoutAttrDict(op: Operator, b: Bindings, canInfer: bool, elements: seq<Element>)
    requires !b.hasAttrDict
    ensures VerifyOutcome(op, b, canInfer, elements, Fail(AttrDictMissing))
  {
  }

  /** The error `verify` reports when the given check is the first to fail. */
  ghost predicate RejectedAs(op: Operator, b: Bindings, elements: seq<Element>, stage: Stage, r: Outcome<FormatError>) {
    && (stage == AttrDictStage ==> r == Fail(AttrDictMissing))
    && (stage == ColonTypeStage ==> r == VerifyAttributeColonType(elements))
    && (stage == AttrDictRegionStage ==> r == VerifyAttrDictRegion(elements))
    && TypesError(op, b, stage, r)
    && CoverageError(op, b, stage, r)
  }

  /** `verifyRegions`, `verifySuccessors` and `verifyOIListElements`, in that order. */
  method VerifyCoverage(op: Operator, b: Bindings, elements: seq<Element>) returns (r: Outcome<FormatError>)
    ensures r.Pass? <==> CoverageStage(op, b, elements).None?
    ensures CoverageStage(op, b, elements).Some? ==> CoverageError(op, b, CoverageStage(op, b, elements).value, r)
  {
    r := VerifyRegions(op, b);
    if r.Fail? {
      return;
    }
    r := VerifySuccessors(op, b);
    if r.Fail? {
      return;
    }
    r := VerifyOIListElements(elements);
  }

  /**
   * What the type checks leave in the format after succeeding, given what
   * it held before: every result and operand type recorded as its decision
   * says, and the builder calls added to the table in first-use order,
   * results first.
   */
  ghost predicate TypesRecorded(op: Operator, b: Bindings, canInfer: bool,
                                pool: seq<string>, operandTypes: seq<TypeResolution>, resultTypes: seq<TypeResolution>, infers: bool,
                                pool': seq<string>, operandTypes': seq<TypeResolution>, resultTypes': seq<TypeResolution>, infers': bool) {
    var m := ResolverMapOf(op, b);
    && infers' == (infers || InfersResultTypes(op, b, canInfer))
    && TypesRecordedOf(ChecksEachResult(op, b, canInfer), ResultDecisions(op, b, m), OperandDecisions(op, b, m),
                       pool, operandTypes, resultTypes, pool', operandTypes', resultTypes')
  }

  ghost predicate TypesRecordedOf(checksEach: bool, rds: seq<TypeDecision>, ods: seq<TypeDecision>,
                                  pool: seq<string>, operandTypes: seq<TypeResolution>, resultTypes: seq<TypeResolution>,
                                  pool': seq<string>, operandTypes': seq<TypeResolution>, resultTypes': seq<TypeResolution>) {
    var poolAfterResults := PoolAfterResults(checksEach, rds, pool);
    BuilderCallsInserted(rds, pool);
    BuilderCallsInserted(ods, poolAfterResults);
    && pool' == InsertAll(poolAfterResults, BuilderCalls(ods))
    && operandTypes' == ResolvedAll(ods, operandTypes, pool')
    && resultTypes' == (if checksEach then ResolvedAll(rds, resultTypes, poolAfterResults) else resultTypes)
    && NoDuplicates(pool')
  }

  /**
   * What a successful `verify` leaves in the format, given what it held
   * before: the type checks' records, the inferred group sizes added, and
   * the attributes and properties used and the `prop-dict` flag copied
   * from the parser.
   */
  function VerifiedValue(op: Operator, b: Bindings, canInfer: bool, before: FormatValue): FormatValue {
    var m := ResolverMapOf(op, b);
    var checksEach := ChecksEachResult(op, b, canInfer);
    var rds := ResultDecisions(op, b, m);
    var ods := OperandDecisions(op, b, m);
    var poolAfterResults := PoolAfterResults(checksEach, rds, before.buildableTypes);
    var pool := InsertAll(poolAfterResults, BuilderCalls(ods));
    BuilderCallsInserted(rds, before.buildableTypes);
    BuilderCallsInserted(ods, poolAfterResults);
    FormatValue(before.infersResultTypes || InfersResultTypes(op, b, canInfer),
                pool,
                ResolvedAll(ods, before.operandTypes, pool),
                if checksEach then ResolvedAll(rds, before.resultTypes, poolAfterResults) else before.resultTypes,
                b.seenAttrs,
                before.inferredAttributes + InferredAttributes(op, b),
                b.seenProperties,
                b.hasPropDict)
  }
}
