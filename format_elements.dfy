/**
 * The elements of an operation's declarative assembly format, the contexts
 * in which they are parsed, the errors the format checker reports, and the
 * small structural queries over elements that the checker, the parser
 * generator and the printer generator share.
 */
module FormatElements {
  import opened Wrappers
  import opened OpSchema

  /** One clause of an `oilist`: its leading keyword and its parsing elements. */
  datatype OIClause = OIClause(literal: string, elements: seq<Element>)

  /**
   * A format element. A variable refers to the operation's argument by its
   * index and carries the argument's description, as a pointer into the
   * operator would.
   */
  datatype Element =
    | Literal(spelling: string)
    | Whitespace(value: string)
    | StringElem(value: string)
    | AttributeVar(attrIndex: nat, attr: NamedAttribute, qualified: bool)
    | PropertyVar(propIndex: nat, prop: NamedProperty)
    | OperandVar(operandIndex: nat, operand: NamedTypeConstraint)
    | ResultVar(resultIndex: nat, result: NamedTypeConstraint)
    | RegionVar(regionIndex: nat, region: NamedRegion)
    | SuccessorVar(successorIndex: nat, successor: NamedSuccessor)
    | AttrDictDir(withKeyword: bool)
    | PropDictDir
    | OperandsDir
    | ResultsDir
    | RegionsDir
    | SuccessorsDir
    | TypeDir(arg: Element, typeQualified: bool)
    | FunctionalTypeDir(inputs: Element, results: Element)
    | RefDir(child: Element)
    | CustomDir(name: string, args: seq<Element>)
    | OIList(clauses: seq<OIClause>)
    // The anchor is one of the branch elements, identified by its branch and
    // its position there. The group is inverted (`isInverted`) exactly when
    // its anchor is in the else branch.
    | OptionalGroup(thenElements: seq<Element>, elseElements: seq<Element>,
                    anchorIndex: nat, anchorInElse: bool)

  /** The context an element is parsed in. */
  datatype Context = TopLevelContext | CustomDirectiveContext | TypeDirectiveContext | RefDirectiveContext

  /** The kinds of operation argument a variable may name. */
  datatype ArgKind = AttributeArg | PropertyArg | OperandArg | RegionArg | ResultArg | SuccessorArg

  /** The diagnostics of the format checker, one constructor per message. */
  datatype FormatError =
    // variable binding
    | VariableInTypeDirective(kind: ArgKind, name: string)
    | NotBoundBeforeReference(kind: ArgKind, name: string)
    | AlreadyBound(kind: ArgKind, name: string)
    | VariableOutsideTopLevelOrRef(kind: ArgKind, name: string)
    | ResultOutsideTypeDirective(name: string)
    | UnknownVariable(name: string)
    // directives
    | AttrDictNotTopLevel
    | AttrDictRefUnbound
    | AttrDictAlreadySeen
    | PropDictNotTopLevel
    | PropDictRefUnsupported   // a fatal error in the generator
    | PropDictAlreadySeen
    | FunctionalTypeNotTopLevel
    | OperandsRefUnbound
    | OperandsOverlap
    | RegionsNotTopLevel
    | RegionsRefUnbound
    | RegionsOverlap
    | ResultsOutsideTypeDirective
    | SuccessorsNotTopLevel
    | SuccessorsRefUnbound
    | SuccessorsOverlap
    | TypeInsideTypeDirective
    | TypeOperandIsLiteral
    | TypeAlreadyBound(name: string)
    | TypeRefUnbound(name: string)
    | OperandsTypeAlreadyBound
    | OperandsTypeRefUnbound
    | ResultsTypeAlreadyBound
    | ResultsTypeRefUnbound
    | InvalidTypeArgument
    | QualifiedNotAttributeOrType
    | CustomArgumentNotVariable
    | CustomTypeArgumentNotVariable
    // optional groups and oilists
    | AnchorAttributeNotOptional
    | AnchorPropertyNotOptional
    | OptionalGroupOperandNotVariableLength
    | OptionalGroupResultNotVariableLength
    | InvalidAnchor
    | InvalidOptionalGroupElement
    | OIListAttributeNotOptional
    | OIListPropertyNotDefaulted
    | OIListOperandNotVariableLength
    | OIListResultNotVariableLength
    | InvalidOIListElement
    // verification
    | AttrDictMissing
    | ColonAfterAttribute(attrName: string)
    | RegionAfterAttrDict(regionName: string)
    | OperandNotFound(operandIndex: nat)
    | OperandTypeNotFound(operandIndex: nat)
    | ResultTypeNotFound(resultIndex: nat)
    | RegionNotFound(regionIndex: nat)
    | SuccessorNotFound(successorIndex: nat)
    | OIListLiteralRepeated(spelling: string)
    | LiteralAfterOIList(spelling: string)

  predicate IsVariable(e: Element) {
    e.AttributeVar? || e.PropertyVar? || e.OperandVar? || e.ResultVar? ||
    e.RegionVar? || e.SuccessorVar?
  }

  /** Attributes and properties are handled alike by much of the generator. */
  predicate IsAttributeLike(e: Element) {
    e.AttributeVar? || e.PropertyVar?
  }

  /** A unit attribute or property; its presence alone carries its value. */
  predicate IsUnit(e: Element) {
    (e.AttributeVar? && e.attr.baseAttrDefName == "UnitAttr") ||
    (e.PropertyVar? && (e.prop.basePropertyDefName == "UnitProp" ||
                        e.prop.basePropertyDefName == "UnitProperty"))
  }

  /** The variable of an oilist clause that consists of one unit attribute or property alone. */
  function GetUnitVariableParsingElement(pelement: seq<Element>): (r: Option<Element>)
    ensures r.Some? <==> |pelement| == 1 && IsAttributeLike(pelement[0]) && IsUnit(pelement[0])
    ensures r.Some? ==> r.value == pelement[0]
  {
    if |pelement| == 1 && IsAttributeLike(pelement[0]) && IsUnit(pelement[0]) then Some(pelement[0])
    else None
  }

  /**
   * The variables `collect` gathers from an element, in order. It looks
   * into custom directives, both branches of optional groups, the two
   * halves of a functional type and the clauses of an oilist, but not into
   * `type` or `ref` directives.
   */
  function Variables(e: Element): seq<Element>
    decreases e
  {
    match e
    case AttributeVar(_, _, _) => [e]
    case PropertyVar(_, _) => [e]
    case OperandVar(_, _) => [e]
    case ResultVar(_, _) => [e]
    case RegionVar(_, _) => [e]
    case SuccessorVar(_, _) => [e]
    case CustomDir(_, args) => VariablesOfAll(args)
    case OptionalGroup(thenElems, elseElems, _, _) => VariablesOfAll(thenElems) + VariablesOfAll(elseElems)
    case FunctionalTypeDir(inputs, results) => Variables(inputs) + Variables(results)
    case OIList(clauses) => VariablesOfClauses(clauses)
    case _ => []
  }

  function VariablesOfAll(es: seq<Element>): seq<Element>
    decreases es
  {
    if |es| == 0 then [] else Variables(es[0]) + VariablesOfAll(es[1..])
  }

  function VariablesOfClauses(cs: seq<OIClause>): seq<Element>
    decreases cs
  {
    if |cs| == 0 then [] else VariablesOfAll(cs[0].elements) + VariablesOfClauses(cs[1..])
  }

  /** Everything `collect` gathers is a variable, and a variable collects exactly itself. */
  lemma {:induction false} VariablesAreVariables(e: Element)
    ensures forall v :: v in Variables(e) ==> IsVariable(v)
    ensures IsVariable(e) ==> Variables(e) == [e]
    decreases e
  {
    match e
    case CustomDir(_, args) => VariablesOfAllAreVariables(args);
    case OptionalGroup(thenElems, elseElems, _, _) =>
      VariablesOfAllAreVariables(thenElems);
      VariablesOfAllAreVariables(elseElems);
    case FunctionalTypeDir(inputs, results) =>
      VariablesAreVariables(inputs);
      VariablesAreVariables(results);
    case OIList(clauses) => VariablesOfClausesAreVariables(clauses);
    case _ =>
  }

  lemma {:induction false} VariablesOfAllAreVariables(es: seq<Element>)
    ensures forall v :: v in VariablesOfAll(es) ==> IsVariable(v)
    decreases es
  {
    if |es| > 0 {
      VariablesAreVariables(es[0]);
      VariablesOfAllAreVariables(es[1..]);
    }
  }

  lemma {:induction false} VariablesOfClausesAreVariables(cs: seq<OIClause>)
    ensures forall v :: v in VariablesOfClauses(cs) ==> IsVariable(v)
    decreases cs
  {
    if |cs| > 0 {
      VariablesOfAllAreVariables(cs[0].elements);
      VariablesOfClausesAreVariables(cs[1..]);
    }
  }

  /** `collect`: appends the variables of `e` to `variables`. */
  method Collect(e: Element, variables: seq<Element>) returns (out: seq<Element>)
    ensures out == variables + Variables(e)
    ensures forall i :: 0 <= i < |variables| ==> out[i] == variables[i]
    ensures forall i :: |variables| <= i < |out| ==> IsVariable(out[i])
    decreases e, 1
  {
    VariablesAreVariables(e);
    out := variables;
    match e {
      case AttributeVar(_, _, _) => out := out + [e];
      case PropertyVar(_, _) => out := out + [e];
      case OperandVar(_, _) => out := out + [e];
      case ResultVar(_, _) => out := out + [e];
      case RegionVar(_, _) => out := out + [e];
      case SuccessorVar(_, _) => out := out + [e];
      case CustomDir(_, args) => out := CollectAll(args, out);
      case OptionalGroup(thenElems, elseElems, _, _) =>
        out := CollectAll(thenElems, out);
        out := CollectAll(elseElems, out);
      case FunctionalTypeDir(inputs, results) =>
        out := Collect(inputs, out);
        out := Collect(results, out);
      case OIList(clauses) => out := CollectClauses(clauses, out);
      case _ =>
    }
  }

  /** `collect` over the clauses of an `oilist`, in order. */
  method CollectClauses(clauses: seq<OIClause>, variables: seq<Element>) returns (out: seq<Element>)
    ensures out == variables + VariablesOfClauses(clauses)
    decreases clauses, 1
  {
    out := variables;
    var c := 0;
    while c < |clauses|
      invariant 0 <= c <= |clauses|
      invariant out + VariablesOfClauses(clauses[c..]) == variables + VariablesOfClauses(clauses)
    {
      assert clauses[c..][1..] == clauses[c + 1..];
      out := CollectAll(clauses[c].elements, out);
      c := c + 1;
    }
  }

  /** `collect` applied to each of `es` in turn. */
  method CollectAll(es: seq<Element>, variables: seq<Element>) returns (out: seq<Element>)
    ensures out == variables + VariablesOfAll(es)
    decreases es, 0
  {
    out := variables;
    var i := 0;
    while i < |es|
      invariant 0 <= i <= |es|
      invariant out + VariablesOfAll(es[i..]) == variables + VariablesOfAll(es)
    {
      assert es[i..][1..] == es[i + 1..];
      out := Collect(es[i], out);
      i := i + 1;
    }
  }

  /** `markQualified`: only an attribute variable or a `type` directive can be qualified. */
  function MarkQualified(e: Element): (r: Result<Element, FormatError>)
    ensures r.Success? <==> e.AttributeVar? || e.TypeDir?
    ensures r.Failure? ==> r.error == QualifiedNotAttributeOrType
    ensures e.AttributeVar? ==> r == Success(e.(qualified := true))
    ensures e.TypeDir? ==> r == Success(e.(typeQualified := true))
  {
    match e
    case AttributeVar(_, _, _) => Success(e.(qualified := true))
    case TypeDir(_, _) => Success(e.(typeQualified := true))
    case _ => Failure(QualifiedNotAttributeOrType)
  }

  /** Whether an element may be absent from the input, so a scan for what follows looks past it. */
  predicate IsOptionallyParsed(e: Element) {
    match e
    case AttributeVar(_, attr, _) => attr.isOptional || attr.hasDefaultValue
    case PropertyVar(_, prop) => prop.hasDefaultValue && prop.hasOptionalParser
    case OperandVar(_, operand) => operand.isOptional || operand.isVariadic || operand.isVariadicOfVariadic
    case SuccessorVar(_, successor) => successor.isVariadic
    case RegionVar(_, region) => region.isVariadic
    case Whitespace(_) => true
    case AttrDictDir(_) => true
    case _ => false
  }
}
