/**
 * What the format parser records while it reads a format: which
 * attributes, properties, operands, regions and successors are bound, which
 * operand and result types are bound, and whether the all-forms
 * (`attr-dict`, `prop-dict`, `operands`, `regions`, `successors`,
 * `type(operands)`, `type(results)`) were used. Each parsing step is a
 * function from this state to an element or an error and the next state.
 */
module FormatBinding {
  import opened Wrappers
  import opened OpSchema
  import opened FormatElements

  /**
   * The parser's binding state. Arguments are identified by their index in
   * the operator. The attribute and property sets keep insertion order;
   * the bit vectors over operand and result types are sets of indices.
   */
  datatype Bindings = Bindings(
    hasAttrDict: bool,
    hasPropDict: bool,
    hasAllRegions: bool,
    hasAllSuccessors: bool,
    allOperands: bool,
    allOperandTypes: bool,
    allResultTypes: bool,
    seenAttrs: seq<nat>,
    seenProperties: seq<nat>,
    seenOperands: set<nat>,
    seenRegions: set<nat>,
    seenSuccessors: set<nat>,
    seenOperandTypes: set<nat>,
    seenResultTypes: set<nat>)

  function InitialBindings(): Bindings {
    Bindings(false, false, false, false, false, false, false, [], [], {}, {}, {}, {}, {})
  }

  /** The outcome of one parsing step. */
  datatype Step = Step(result: Result<Element, FormatError>, next: Bindings)

  function Reject(error: FormatError, b: Bindings): Step {
    Step(Failure(error), b)
  }

  predicate IsBindingContext(ctx: Context) {
    ctx == TopLevelContext || ctx == CustomDirectiveContext
  }

  /** The state only ever grows: no flag is cleared and nothing is unbound. */
  predicate Grows(b: Bindings, b': Bindings) {
    (b.hasAttrDict ==> b'.hasAttrDict) && (b.hasPropDict ==> b'.hasPropDict) &&
    (b.hasAllRegions ==> b'.hasAllRegions) && (b.hasAllSuccessors ==> b'.hasAllSuccessors) &&
    (b.allOperands ==> b'.allOperands) && (b.allOperandTypes ==> b'.allOperandTypes) &&
    (b.allResultTypes ==> b'.allResultTypes) &&
    b.seenAttrs <= b'.seenAttrs && b.seenProperties <= b'.seenProperties &&
    b.seenOperands <= b'.seenOperands && b.seenRegions <= b'.seenRegions &&
    b.seenSuccessors <= b'.seenSuccessors && b.seenOperandTypes <= b'.seenOperandTypes &&
    b.seenResultTypes <= b'.seenResultTypes
  }

  lemma GrowsTransitive(b0: Bindings, b1: Bindings, b2: Bindings)
    requires Grows(b0, b1) && Grows(b1, b2)
    ensures Grows(b0, b2)
  {
  }

  // ---- Variables -------------------------------------------------------------

  function BindAttribute(op: Operator, b: Bindings, i: nat, name: string, ctx: Context): (s: Step)
    requires i < |op.attributes|
    ensures s.result.Failure? || !IsBindingContext(ctx) ==> s.next == b
  {
    if ctx == TypeDirectiveContext then Reject(VariableInTypeDirective(AttributeArg, name), b)
    else if ctx == RefDirectiveContext then
      if i !in b.seenAttrs then Reject(NotBoundBeforeReference(AttributeArg, name), b)
      else Step(Success(AttributeVar(i, op.attributes[i], false)), b)
    else if i in b.seenAttrs then Reject(AlreadyBound(AttributeArg, name), b)
    else Step(Success(AttributeVar(i, op.attributes[i], false)), b.(seenAttrs := b.seenAttrs + [i]))
  }

  function BindProperty(op: Operator, b: Bindings, i: nat, name: string, ctx: Context): (s: Step)
    requires i < |op.properties|
    ensures s.result.Failure? || !IsBindingContext(ctx) ==> s.next == b
  {
    if ctx == TypeDirectiveContext then Reject(VariableInTypeDirective(PropertyArg, name), b)
    else if ctx == RefDirectiveContext then
      if i !in b.seenProperties then Reject(NotBoundBeforeReference(PropertyArg, name), b)
      else Step(Success(PropertyVar(i, op.properties[i])), b)
    else if i in b.seenProperties then Reject(AlreadyBound(PropertyArg, name), b)
    else Step(Success(PropertyVar(i, op.properties[i])), b.(seenProperties := b.seenProperties + [i]))
  }

  function BindOperand(op: Operator, b: Bindings, i: nat, name: string, ctx: Context): (s: Step)
    requires i < |op.operands|
    ensures s.result.Failure? || !IsBindingContext(ctx) ==> s.next == b
  {
    var e := OperandVar(i, op.operands[i]);
    if IsBindingContext(ctx) then
      // With `operands` present no operand may be bound on its own.
      if b.allOperands || i in b.seenOperands then Reject(AlreadyBound(OperandArg, name), b)
      else Step(Success(e), b.(seenOperands := b.seenOperands + {i}))
    else if ctx == RefDirectiveContext && i !in b.seenOperands then
      Reject(NotBoundBeforeReference(OperandArg, name), b)
    else Step(Success(e), b)
  }

  function BindRegion(op: Operator, b: Bindings, i: nat, name: string, ctx: Context): (s: Step)
    requires i < |op.regions|
    ensures s.result.Failure? || !IsBindingContext(ctx) ==> s.next == b
  {
    var e := RegionVar(i, op.regions[i]);
    if IsBindingContext(ctx) then
      if b.hasAllRegions || i in b.seenRegions then Reject(AlreadyBound(RegionArg, name), b)
      else Step(Success(e), b.(seenRegions := b.seenRegions + {i}))
    else if ctx == RefDirectiveContext then
      if i !in b.seenRegions then Reject(NotBoundBeforeReference(RegionArg, name), b)
      else Step(Success(e), b)
    else Reject(VariableOutsideTopLevelOrRef(RegionArg, name), b)
  }

  function BindResult(op: Operator, b: Bindings, i: nat, name: string, ctx: Context): (s: Step)
    requires i < |op.results|
    ensures s.result.Failure? || !IsBindingContext(ctx) ==> s.next == b
  {
    if ctx != TypeDirectiveContext then Reject(ResultOutsideTypeDirective(name), b)
    else Step(Success(ResultVar(i, op.results[i])), b)
  }

  function BindSuccessor(op: Operator, b: Bindings, i: nat, name: string, ctx: Context): (s: Step)
    requires i < |op.successors|
    ensures s.result.Failure? || !IsBindingContext(ctx) ==> s.next == b
  {
    var e := SuccessorVar(i, op.successors[i]);
    if IsBindingContext(ctx) then
      if b.hasAllSuccessors || i in b.seenSuccessors then Reject(AlreadyBound(SuccessorArg, name), b)
      else Step(Success(e), b.(seenSuccessors := b.seenSuccessors + {i}))
    else if ctx == RefDirectiveContext then
      if i !in b.seenSuccessors then Reject(NotBoundBeforeReference(SuccessorArg, name), b)
      else Step(Success(e), b)
    else Reject(VariableOutsideTopLevelOrRef(SuccessorArg, name), b)
  }

  /**
   * `parseVariableImpl`: `$name` is looked up among the attributes, then
   * the properties, operands, regions, results and successors.
   */
  function ParseVariable(op: Operator, b: Bindings, name: string, ctx: Context): (s: Step)
    ensures s.result.Failure? || ctx == RefDirectiveContext || ctx == TypeDirectiveContext ==> s.next == b
  {
    match FindArg(AttributeNames(op.attributes), name)
    case Some(i) => BindAttribute(op, b, i, name, ctx)
    case None =>
      match FindArg(PropertyNames(op.properties), name)
      case Some(i) => BindProperty(op, b, i, name, ctx)
      case None =>
        match FindArg(ConstraintNames(op.operands), name)
        case Some(i) => BindOperand(op, b, i, name, ctx)
        case None =>
          match FindArg(RegionNames(op.regions), name)
          case Some(i) => BindRegion(op, b, i, name, ctx)
          case None =>
            match FindArg(ConstraintNames(op.results), name)
            case Some(i) => BindResult(op, b, i, name, ctx)
            case None =>
              match FindArg(SuccessorNames(op.successors), name)
              case Some(i) => BindSuccessor(op, b, i, name, ctx)
              case None => Reject(UnknownVariable(name), b)
  }

  /** The kind of argument a name is resolved to, first match in probing order. */
  function ProbedKind(op: Operator, name: string): Option<ArgKind> {
    if name in AttributeNames(op.attributes) then Some(AttributeArg)
    else if name in PropertyNames(op.properties) then Some(PropertyArg)
    else if name in ConstraintNames(op.operands) then Some(OperandArg)
    else if name in RegionNames(op.regions) then Some(RegionArg)
    else if name in ConstraintNames(op.results) then Some(ResultArg)
    else if name in SuccessorNames(op.successors) then Some(SuccessorArg)
    else None
  }

  /** The kind of argument a step's element or error is about. */
  function KindOf(r: Result<Element, FormatError>): Option<ArgKind> {
    match r
    case Success(e) =>
      if e.AttributeVar? then Some(AttributeArg) else if e.PropertyVar? then Some(PropertyArg)
      else if e.OperandVar? then Some(OperandArg) else if e.RegionVar? then Some(RegionArg)
      else if e.ResultVar? then Some(ResultArg) else if e.SuccessorVar? then Some(SuccessorArg)
      else None
    case Failure(err) =>
      if err.VariableInTypeDirective? || err.NotBoundBeforeReference? || err.AlreadyBound? ||
         err.VariableOutsideTopLevelOrRef? then Some(err.kind)
      else if err.ResultOutsideTypeDirective? then Some(ResultArg)
      else None
  }

  /**
   * The name is resolved to the first kind of argument that declares it,
   * and a name declared by none is an unknown variable.
   */
  lemma ParseVariableProbeOrder(op: Operator, b: Bindings, name: string, ctx: Context)
    ensures KindOf(ParseVariable(op, b, name, ctx).result) == ProbedKind(op, name)
    ensures ProbedKind(op, name).None? ==> ParseVariable(op, b, name, ctx).result == Failure(UnknownVariable(name))
  {
    if ProbedKind(op, name).Some? {
      ParseVariableDispatch(op, b, name, ctx);
      BindKindIsOfKind(op, b, ProbedKind(op, name).value, ArgIndex(op, name), name, ctx);
    }
  }

  /** Each binding step reports an element or an error about its own kind of argument. */
  lemma BindKindIsOfKind(op: Operator, b: Bindings, kind: ArgKind, i: nat, name: string, ctx: Context)
    requires match kind
             case AttributeArg => i < |op.attributes|
             case PropertyArg => i < |op.properties|
             case OperandArg => i < |op.operands|
             case RegionArg => i < |op.regions|
             case ResultArg => i < |op.results|
             case SuccessorArg => i < |op.successors|
    ensures KindOf(BindKind(op, b, kind, i, name, ctx).result) == Some(kind)
  {
  }

  /** The index of the argument a name resolves to, in the list of its kind. */
  function ArgIndex(op: Operator, name: string): nat
    requires ProbedKind(op, name).Some?
  {
    match ProbedKind(op, name).value
    case AttributeArg => FindArg(AttributeNames(op.attributes), name).value
    case PropertyArg => FindArg(PropertyNames(op.properties), name).value
    case OperandArg => FindArg(ConstraintNames(op.operands), name).value
    case RegionArg => FindArg(RegionNames(op.regions), name).value
    case ResultArg => FindArg(ConstraintNames(op.results), name).value
    case SuccessorArg => FindArg(SuccessorNames(op.successors), name).value
  }

  /** Whether the argument of the given kind and index is bound by itself. */
  predicate IsBound(b: Bindings, kind: ArgKind, i: nat) {
    match kind
    case AttributeArg => i in b.seenAttrs
    case PropertyArg => i in b.seenProperties
    case OperandArg => i in b.seenOperands
    case RegionArg => i in b.seenRegions
    case SuccessorArg => i in b.seenSuccessors
    case ResultArg => false
  }

  /** The binding step for an argument of a given kind and index. */
  function BindKind(op: Operator, b: Bindings, kind: ArgKind, i: nat, name: string, ctx: Context): Step
    requires match kind
             case AttributeArg => i < |op.attributes|
             case PropertyArg => i < |op.properties|
             case OperandArg => i < |op.operands|
             case RegionArg => i < |op.regions|
             case ResultArg => i < |op.results|
             case SuccessorArg => i < |op.successors|
  {
    match kind
    case AttributeArg => BindAttribute(op, b, i, name, ctx)
    case PropertyArg => BindProperty(op, b, i, name, ctx)
    case OperandArg => BindOperand(op, b, i, name, ctx)
    case RegionArg => BindRegion(op, b, i, name, ctx)
    case ResultArg => BindResult(op, b, i, name, ctx)
    case SuccessorArg => BindSuccessor(op, b, i, name, ctx)
  }

  lemma ParseVariableDispatch(op: Operator, b: Bindings, name: string, ctx: Context)
    requires ProbedKind(op, name).Some?
    ensures ParseVariable(op, b, name, ctx) == BindKind(op, b, ProbedKind(op, name).value, ArgIndex(op, name), name, ctx)
  {
  }

  /**
   * In a top-level or custom-directive context, a variable that is not a
   * result is bound exactly once: the first use of an unbound one binds
   * it, and any later such use fails as already bound.
   */
  lemma {:induction false} VariableBoundOnce(op: Operator, b: Bindings, name: string, ctx1: Context, ctx2: Context)
    requires IsBindingContext(ctx1) && IsBindingContext(ctx2)
    requires ProbedKind(op, name).Some? && ProbedKind(op, name) != Some(ResultArg)
    ensures var s := ParseVariable(op, b, name, ctx1);
            s.result.Success? ==> IsBound(s.next, ProbedKind(op, name).value, ArgIndex(op, name)) &&
                                  ParseVariable(op, s.next, name, ctx2).result ==
                                  Failure(AlreadyBound(ProbedKind(op, name).value, name))
    ensures IsBound(b, ProbedKind(op, name).value, ArgIndex(op, name)) ==>
            ParseVariable(op, b, name, ctx1).result == Failure(AlreadyBound(ProbedKind(op, name).value, name))
  {
    var kind := ProbedKind(op, name).value;
    var i := ArgIndex(op, name);
    ParseVariableDispatch(op, b, name, ctx1);
    var s := BindKind(op, b, kind, i, name, ctx1);
    ParseVariableDispatch(op, s.next, name, ctx2);
    BindKindOnce(op, b, kind, i, name, ctx1, ctx2);
  }

  lemma BindKindOnce(op: Operator, b: Bindings, kind: ArgKind, i: nat, name: string, ctx1: Context, ctx2: Context)
    requires IsBindingContext(ctx1) && IsBindingContext(ctx2) && kind != ResultArg
    requires match kind
             case AttributeArg => i < |op.attributes|
             case PropertyArg => i < |op.properties|
             case OperandArg => i < |op.operands|
             case RegionArg => i < |op.regions|
             case ResultArg => i < |op.results|
             case SuccessorArg => i < |op.successors|
    ensures var s := BindKind(op, b, kind, i, name, ctx1);
            s.result.Success? ==> IsBound(s.next, kind, i) &&
                                  BindKind(op, s.next, kind, i, name, ctx2).result == Failure(AlreadyBound(kind, name))
    ensures IsBound(b, kind, i) ==> BindKind(op, b, kind, i, name, ctx1).result == Failure(AlreadyBound(kind, name))
  {
  }

  /**
   * Under `ref`, a variable that is not a result must already be bound;
   * an unbound one fails, and in every case the state is unchanged.
   */
  lemma ReferenceNeedsBinding(op: Operator, b: Bindings, name: string)
    requires ProbedKind(op, name).Some? && ProbedKind(op, name) != Some(ResultArg)
    ensures var s := ParseVariable(op, b, name, RefDirectiveContext);
            s.next == b &&
            (s.result.Success? <==> IsBound(b, ProbedKind(op, name).value, ArgIndex(op, name))) &&
            (s.result.Failure? ==> s.result == Failure(NotBoundBeforeReference(ProbedKind(op, name).value, name)))
  {
    ParseVariableDispatch(op, b, name, RefDirectiveContext);
    BindKindUnderReference(op, b, ProbedKind(op, name).value, ArgIndex(op, name), name);
  }

  lemma BindKindUnderReference(op: Operator, b: Bindings, kind: ArgKind, i: nat, name: string)
    requires kind != ResultArg
    requires match kind
             case AttributeArg => i < |op.attributes|
             case PropertyArg => i < |op.properties|
             case OperandArg => i < |op.operands|
             case RegionArg => i < |op.regions|
             case ResultArg => i < |op.results|
             case SuccessorArg => i < |op.successors|
    ensures var s := BindKind(op, b, kind, i, name, RefDirectiveContext);
            s.next == b &&
            (s.result.Success? <==> IsBound(b, kind, i)) &&
            (s.result.Failure? ==> s.result == Failure(NotBoundBeforeReference(kind, name)))
  {
  }

  /** A result variable is accepted only as the child of a `type` directive. */
  lemma ResultOnlyInTypeDirective(op: Operator, b: Bindings, name: string, ctx: Context)
    requires ProbedKind(op, name) == Some(ResultArg)
    ensures ParseVariable(op, b, name, ctx).result.Success? <==> ctx == TypeDirectiveContext
  {
  }

  /** Once `operands`, `regions` or `successors` is used, no variable of that kind can be bound on its own. */
  lemma AllFormBlocksIndividual(op: Operator, b: Bindings, name: string, ctx: Context)
    requires IsBindingContext(ctx) && ProbedKind(op, name).Some?
    requires var k := ProbedKind(op, name).value;
             (k == OperandArg && b.allOperands) || (k == RegionArg && b.hasAllRegions) ||
             (k == SuccessorArg && b.hasAllSuccessors)
    ensures ParseVariable(op, b, name, ctx).result == Failure(AlreadyBound(ProbedKind(op, name).value, name))
  {
  }

  // ---- Directives ------------------------------------------------------------

  /** `attr-dict` and `attr-dict-with-keyword`. */
  function ParseAttrDictDirective(b: Bindings, ctx: Context, withKeyword: bool): (s: Step)
    ensures s.result.Failure? || ctx == RefDirectiveContext ==> s.next == b
    ensures s.result.Success? ==> s.result.value == AttrDictDir(withKeyword) && s.next.hasAttrDict
  {
    if ctx == TypeDirectiveContext then Reject(AttrDictNotTopLevel, b)
    else if ctx == RefDirectiveContext then
      if !b.hasAttrDict then Reject(AttrDictRefUnbound, b) else Step(Success(AttrDictDir(withKeyword)), b)
    else if b.hasAttrDict then Reject(AttrDictAlreadySeen, b)
    else Step(Success(AttrDictDir(withKeyword)), b.(hasAttrDict := true))
  }

  /**
   * The attribute dictionary is bound exactly once: never inside `type`,
   * under `ref` only after it is bound, and elsewhere only before.
   */
  lemma AttrDictOnce(b: Bindings, ctx: Context, withKeyword: bool)
    ensures ctx == TypeDirectiveContext ==> ParseAttrDictDirective(b, ctx, withKeyword).result == Failure(AttrDictNotTopLevel)
    ensures ctx == RefDirectiveContext ==> (ParseAttrDictDirective(b, ctx, withKeyword).result.Success? <==> b.hasAttrDict)
    ensures IsBindingContext(ctx) ==> (ParseAttrDictDirective(b, ctx, withKeyword).result.Success? <==> !b.hasAttrDict)
    ensures IsBindingContext(ctx) ==>
            forall k: bool, c: Context :: IsBindingContext(c) ==>
              ParseAttrDictDirective(ParseAttrDictDirective(b, ctx, withKeyword).next, c, k).result == Failure(AttrDictAlreadySeen)
  {
  }

  /** `prop-dict`; a `ref` of it is a fatal error of the generator. */
  function ParsePropDictDirective(b: Bindings, ctx: Context): (s: Step)
    ensures s.result.Failure? ==> s.next == b
    ensures s.result.Success? <==> IsBindingContext(ctx) && !b.hasPropDict
  {
    if ctx == TypeDirectiveContext then Reject(PropDictNotTopLevel, b)
    else if ctx == RefDirectiveContext then Reject(PropDictRefUnsupported, b)
    else if b.hasPropDict then Reject(PropDictAlreadySeen, b)
    else Step(Success(PropDictDir), b.(hasPropDict := true))
  }

  /** `operands`; inside a `type` directive it binds nothing here. */
  function ParseOperandsDirective(b: Bindings, ctx: Context): (s: Step)
    ensures s.result.Failure? || !IsBindingContext(ctx) ==> s.next == b
    ensures IsBindingContext(ctx) ==>
              (s.result.Success? <==> !b.allOperands && b.seenOperands == {}) &&
              (s.result.Failure? ==> s.result.error == OperandsOverlap)
    ensures ctx == RefDirectiveContext ==> (s.result.Success? <==> b.allOperands)
    ensures s.result.Success? ==> s.result.value == OperandsDir
  {
    if ctx == RefDirectiveContext then
      if !b.allOperands then Reject(OperandsRefUnbound, b) else Step(Success(OperandsDir), b)
    else if IsBindingContext(ctx) then
      if b.allOperands || b.seenOperands != {} then Reject(OperandsOverlap, b)
      else Step(Success(OperandsDir), b.(allOperands := true))
    else Step(Success(OperandsDir), b)
  }

  function ParseRegionsDirective(b: Bindings, ctx: Context): (s: Step)
    ensures s.result.Failure? || !IsBindingContext(ctx) ==> s.next == b
    ensures IsBindingContext(ctx) ==>
              (s.result.Success? <==> !b.hasAllRegions && b.seenRegions == {}) &&
              (s.result.Failure? ==> s.result.error == RegionsOverlap)
    ensures ctx == RefDirectiveContext ==> (s.result.Success? <==> b.hasAllRegions)
    ensures ctx == TypeDirectiveContext ==> s.result == Failure(RegionsNotTopLevel)
  {
    if ctx == TypeDirectiveContext then Reject(RegionsNotTopLevel, b)
    else if ctx == RefDirectiveContext then
      if !b.hasAllRegions then Reject(RegionsRefUnbound, b) else Step(Success(RegionsDir), b)
    else if b.hasAllRegions || b.seenRegions != {} then Reject(RegionsOverlap, b)
    else Step(Success(RegionsDir), b.(hasAllRegions := true))
  }

  function ParseResultsDirective(b: Bindings, ctx: Context): (s: Step)
    ensures s.next == b
    ensures s.result.Success? <==> ctx == TypeDirectiveContext
  {
    if ctx != TypeDirectiveContext then Reject(ResultsOutsideTypeDirective, b)
    else Step(Success(ResultsDir), b)
  }

  function ParseSuccessorsDirective(b: Bindings, ctx: Context): (s: Step)
    ensures s.result.Failure? || !IsBindingContext(ctx) ==> s.next == b
    ensures IsBindingContext(ctx) ==>
              (s.result.Success? <==> !b.hasAllSuccessors && b.seenSuccessors == {}) &&
              (s.result.Failure? ==> s.result.error == SuccessorsOverlap)
    ensures ctx == RefDirectiveContext ==> (s.result.Success? <==> b.hasAllSuccessors)
    ensures ctx == TypeDirectiveContext ==> s.result == Failure(SuccessorsNotTopLevel)
  {
    if ctx == TypeDirectiveContext then Reject(SuccessorsNotTopLevel, b)
    else if ctx == RefDirectiveContext then
      if !b.hasAllSuccessors then Reject(SuccessorsRefUnbound, b) else Step(Success(SuccessorsDir), b)
    else if b.hasAllSuccessors || b.seenSuccessors != {} then Reject(SuccessorsOverlap, b)
    else Step(Success(SuccessorsDir), b.(hasAllSuccessors := true))
  }

  /**
   * `parseTypeDirectiveOperand`: binds the type of an operand or result,
   * or of all operands or all results. Outside `ref` the type must not be
   * bound yet; under `ref` it must be.
   */
  function ParseTypeDirectiveOperand(b: Bindings, element: Element, isRefChild: bool): (s: Step)
    ensures s.result.Failure? ==> s.next == b
    ensures s.result.Success? ==> s.result.value == element
  {
    if element.Literal? then Reject(TypeOperandIsLiteral, b)
    else if element.OperandVar? then BindOperandType(b, element, isRefChild)
    else if element.ResultVar? then BindResultType(b, element, isRefChild)
    else if element.OperandsDir? then
      if !isRefChild && (b.allOperandTypes || b.seenOperandTypes != {}) then Reject(OperandsTypeAlreadyBound, b)
      else if isRefChild && !b.allOperandTypes then Reject(OperandsTypeRefUnbound, b)
      else Step(Success(element), b.(allOperandTypes := true))
    else if element.ResultsDir? then
      if !isRefChild && (b.allResultTypes || b.seenResultTypes != {}) then Reject(ResultsTypeAlreadyBound, b)
      else if isRefChild && !b.allResultTypes then Reject(ResultsTypeRefUnbound, b)
      else Step(Success(element), b.(allResultTypes := true))
    else Reject(InvalidTypeArgument, b)
  }

  function BindOperandType(b: Bindings, element: Element, isRefChild: bool): (s: Step)
    requires element.OperandVar?
    ensures s.result.Failure? ==> s.next == b
    ensures s.result.Success? ==> s.result.value == element
  {
    var bound := b.allOperandTypes || element.operandIndex in b.seenOperandTypes;
    if !isRefChild && bound then Reject(TypeAlreadyBound(element.operand.name), b)
    else if isRefChild && !bound then Reject(TypeRefUnbound(element.operand.name), b)
    else Step(Success(element), b.(seenOperandTypes := b.seenOperandTypes + {element.operandIndex}))
  }

  function BindResultType(b: Bindings, element: Element, isRefChild: bool): (s: Step)
    requires element.ResultVar?
    ensures s.result.Failure? ==> s.next == b
    ensures s.result.Success? ==> s.result.value == element
  {
    var bound := b.allResultTypes || element.resultIndex in b.seenResultTypes;
    if !isRefChild && bound then Reject(TypeAlreadyBound(element.result.name), b)
    else if isRefChild && !bound then Reject(TypeRefUnbound(element.result.name), b)
    else Step(Success(element), b.(seenResultTypes := b.seenResultTypes + {element.resultIndex}))
  }

  /** Whether the type of an operand or result, or of all of them, is bound. */
  predicate TypeBound(b: Bindings, element: Element) {
    match element
    case OperandVar(idx, _) => b.allOperandTypes || idx in b.seenOperandTypes
    case ResultVar(idx, _) => b.allResultTypes || idx in b.seenResultTypes
    case OperandsDir => b.allOperandTypes
    case ResultsDir => b.allResultTypes
    case _ => false
  }

  /**
   * A type is bound once: outside `ref` it is accepted iff it is not bound
   * yet (for the all-forms: and no single one of that kind is), after
   * which it is bound and a second binding fails; under `ref` it is
   * accepted iff it is already bound.
   */
  lemma TypeBoundOnce(b: Bindings, element: Element)
    requires element.OperandVar? || element.ResultVar? || element.OperandsDir? || element.ResultsDir?
    ensures var s := ParseTypeDirectiveOperand(b, element, false);
            (s.result.Success? <==>
               !TypeBound(b, element) &&
               (element.OperandsDir? ==> b.seenOperandTypes == {}) &&
               (element.ResultsDir? ==> b.seenResultTypes == {})) &&
            (s.result.Success? ==> TypeBound(s.next, element) && ParseTypeDirectiveOperand(s.next, element, false).result.Failure?)
    ensures ParseTypeDirectiveOperand(b, element, true).result.Success? <==> TypeBound(b, element)
  {
  }

  /** `type(...)`: not inside another `type`; under `ref` its operand must already be bound. */
  function ParseTypeDirective(b: Bindings, ctx: Context, operand: Element): (s: Step)
    ensures s.result.Failure? ==> s.next == b
    ensures s.result.Success? ==> s.result.value == TypeDir(operand, false)
    ensures ctx == TypeDirectiveContext ==> s.result == Failure(TypeInsideTypeDirective)
  {
    if ctx == TypeDirectiveContext then Reject(TypeInsideTypeDirective, b)
    else
      var t := ParseTypeDirectiveOperand(b, operand, ctx == RefDirectiveContext);
      if t.result.Failure? then t else Step(Success(TypeDir(operand, false)), t.next)
  }

  /**
   * `functional-type(inputs, results)`: top level only; both operands bind
   * their types. When the results operand is rejected, the binding the
   * inputs operand made stays.
   */
  function ParseFunctionalTypeDirective(b: Bindings, ctx: Context, inputs: Element, results: Element): (s: Step)
    ensures s.result.Failure? ==> s.next == b || s.next == ParseTypeDirectiveOperand(b, inputs, false).next
    ensures s.result.Success? ==> ctx == TopLevelContext && s.result.value == FunctionalTypeDir(inputs, results)
  {
    if ctx != TopLevelContext then Reject(FunctionalTypeNotTopLevel, b)
    else
      var i := ParseTypeDirectiveOperand(b, inputs, false);
      if i.result.Failure? then i
      else
        var r := ParseTypeDirectiveOperand(i.next, results, false);
        if r.result.Failure? then r
        else Step(Success(FunctionalTypeDir(inputs, results)), r.next)
  }

  // ---- Whole runs ------------------------------------------------------------

  /** One call of a parse method, with the child elements it parsed already given. */
  datatype Action =
    | VariableAction(name: string, ctx: Context)
    | AttrDictAction(ctx: Context, withKeyword: bool)
    | PropDictAction(ctx: Context)
    | OperandsAction(ctx: Context)
    | RegionsAction(ctx: Context)
    | ResultsAction(ctx: Context)
    | SuccessorsAction(ctx: Context)
    | TypeAction(ctx: Context, operand: Element)
    | FunctionalTypeAction(ctx: Context, inputs: Element, results: Element)

  function Apply(op: Operator, b: Bindings, a: Action): (s: Step)
    ensures s.result.Failure? && !a.FunctionalTypeAction? ==> s.next == b
  {
    match a
    case VariableAction(name, ctx) => ParseVariable(op, b, name, ctx)
    case AttrDictAction(ctx, withKeyword) => ParseAttrDictDirective(b, ctx, withKeyword)
    case PropDictAction(ctx) => ParsePropDictDirective(b, ctx)
    case OperandsAction(ctx) => ParseOperandsDirective(b, ctx)
    case RegionsAction(ctx) => ParseRegionsDirective(b, ctx)
    case ResultsAction(ctx) => ParseResultsDirective(b, ctx)
    case SuccessorsAction(ctx) => ParseSuccessorsDirective(b, ctx)
    case TypeAction(ctx, operand) => ParseTypeDirective(b, ctx, operand)
    case FunctionalTypeAction(ctx, inputs, results) => ParseFunctionalTypeDirective(b, ctx, inputs, results)
  }

  /** The state after a sequence of parse calls, each made in the state the previous one left. */
  function Run(op: Operator, b: Bindings, actions: seq<Action>): (b': Bindings)
    decreases |actions|
  {
    if |actions| == 0 then b
    else Run(op, Apply(op, b, actions[0]).next, actions[1..])
  }

  /** One parse call never clears a flag or unbinds anything. */
  lemma ApplyGrows(op: Operator, b: Bindings, a: Action)
    ensures Grows(b, Apply(op, b, a).next)
  {
    if a.VariableAction? {
      ApplyVariableStep(op, b, a);
      BindStepGrows(op, b, Apply(op, b, a).next, VariableIndex(op, a.name));
    } else if a.TypeAction? || a.FunctionalTypeAction? {
      ApplyTypeStep(op, b, a);
      TypeStepGrows(op, b, Apply(op, b, a).next, ActionRefersInto(op, a));
    } else {
      ApplyDirectiveStep(op, b, a);
      FlagStepGrows(b, Apply(op, b, a).next);
    }
  }

  /** Over a whole run the state only grows. */
  lemma {:induction false} RunGrows(op: Operator, b: Bindings, actions: seq<Action>)
    ensures Grows(b, Run(op, b, actions))
    decreases |actions|
  {
    if |actions| > 0 {
      var s := Apply(op, b, actions[0]);
      ApplyGrows(op, b, actions[0]);
      RunGrows(op, s.next, actions[1..]);
      GrowsTransitive(b, s.next, Run(op, s.next, actions[1..]));
    }
  }

  /** The number of calls in a run that bind the attribute dictionary. */
  function AttrDictBindings(op: Operator, b: Bindings, actions: seq<Action>): nat
    decreases |actions|
  {
    if |actions| == 0 then 0
    else
      var s := Apply(op, b, actions[0]);
      var here := if actions[0].AttrDictAction? && IsBindingContext(actions[0].ctx) && s.result.Success? then 1 else 0;
      here + AttrDictBindings(op, s.next, actions[1..])
  }

  /** A call that binds the attribute dictionary is accepted only while it is unbound, and binds it. */
  lemma AttrDictBindingStep(op: Operator, b: Bindings, a: Action)
    requires a.AttrDictAction? && IsBindingContext(a.ctx) && Apply(op, b, a).result.Success?
    ensures !b.hasAttrDict && Apply(op, b, a).next.hasAttrDict
  {
    AttrDictOnce(b, a.ctx, a.withKeyword);
  }

  /** Over any run, `attr-dict` is accepted as a binding at most once, and not at all once bound. */
  lemma {:induction false} AttrDictAtMostOnce(op: Operator, b: Bindings, actions: seq<Action>)
    ensures AttrDictBindings(op, b, actions) <= 1
    ensures b.hasAttrDict ==> AttrDictBindings(op, b, actions) == 0
    ensures AttrDictBindings(op, b, actions) == 1 ==> Run(op, b, actions).hasAttrDict
    decreases |actions|
  {
    if |actions| > 0 {
      var s := Apply(op, b, actions[0]);
      ApplyGrows(op, b, actions[0]);
      AttrDictAtMostOnce(op, s.next, actions[1..]);
      if actions[0].AttrDictAction? && IsBindingContext(actions[0].ctx) && s.result.Success? {
        AttrDictBindingStep(op, b, actions[0]);
        RunGrows(op, s.next, actions[1..]);
      }
    }
  }

  /**
   * The exclusivity the checker maintains: an all-form and single
   * bindings of the same kind never coexist, the attribute and property
   * sets hold no duplicates, and every bound index is an argument of the
   * operator.
   */
  ghost predicate Consistent(op: Operator, b: Bindings) {
    (b.allOperands ==> b.seenOperands == {}) &&
    (b.hasAllRegions ==> b.seenRegions == {}) &&
    (b.hasAllSuccessors ==> b.seenSuccessors == {}) &&
    (forall i, j :: 0 <= i < j < |b.seenAttrs| ==> b.seenAttrs[i] != b.seenAttrs[j]) &&
    (forall i, j :: 0 <= i < j < |b.seenProperties| ==> b.seenProperties[i] != b.seenProperties[j]) &&
    (forall i :: i in b.seenAttrs ==> i < |op.attributes|) &&
    (forall i :: i in b.seenProperties ==> i < |op.properties|) &&
    (forall i :: i in b.seenOperands ==> i < |op.operands|) &&
    (forall i :: i in b.seenRegions ==> i < |op.regions|) &&
    (forall i :: i in b.seenSuccessors ==> i < |op.successors|) &&
    (forall i :: i in b.seenOperandTypes ==> i < |op.operands|) &&
    (forall i :: i in b.seenResultTypes ==> i < |op.results|)
  }

  /** An element refers to an argument the operator has. */
  predicate RefersInto(op: Operator, e: Element) {
    (e.OperandVar? ==> e.operandIndex < |op.operands|) &&
    (e.ResultVar? ==> e.resultIndex < |op.results|)
  }

  /** A type operand the parser can be handed: one it produced for this operator. */
  predicate ActionRefersInto(op: Operator, a: Action) {
    (a.TypeAction? ==> RefersInto(op, a.operand)) &&
    (a.FunctionalTypeAction? ==> RefersInto(op, a.inputs) && RefersInto(op, a.results))
  }

  lemma SeqAppendNoDuplicate(s: seq<nat>, x: nat)
    requires forall i, j :: 0 <= i < j < |s| ==> s[i] != s[j]
    requires x !in s
    ensures forall i, j :: 0 <= i < j < |s + [x]| ==> (s + [x])[i] != (s + [x])[j]
  {
  }

  // ---- The shapes of one step ------------------------------------------------

  /**
   * A directive step: nothing is bound on its own, flags are only set, and
   * `operands`, `regions` or `successors` is set only while no single
   * binding of its kind exists.
   */
  ghost predicate FlagStep(b: Bindings, n: Bindings) {
    n.seenAttrs == b.seenAttrs && n.seenProperties == b.seenProperties &&
    n.seenOperands == b.seenOperands && n.seenRegions == b.seenRegions &&
    n.seenSuccessors == b.seenSuccessors && n.seenOperandTypes == b.seenOperandTypes &&
    n.seenResultTypes == b.seenResultTypes &&
    (b.hasAttrDict ==> n.hasAttrDict) && (b.hasPropDict ==> n.hasPropDict) &&
    (b.hasAllRegions ==> n.hasAllRegions) && (b.hasAllSuccessors ==> n.hasAllSuccessors) &&
    (b.allOperands ==> n.allOperands) && (b.allOperandTypes ==> n.allOperandTypes) &&
    (b.allResultTypes ==> n.allResultTypes) &&
    (n.allOperands != b.allOperands ==> b.seenOperands == {}) &&
    (n.hasAllRegions != b.hasAllRegions ==> b.seenRegions == {}) &&
    (n.hasAllSuccessors != b.hasAllSuccessors ==> b.seenSuccessors == {})
  }

  /**
   * A type step: only the operand and result types grow, and when the
   * type operands refer into the operator (`inRange`), only by types the
   * operator has.
   */
  ghost predicate TypeStep(op: Operator, b: Bindings, n: Bindings, inRange: bool) {
    n.hasAttrDict == b.hasAttrDict && n.hasPropDict == b.hasPropDict &&
    n.hasAllRegions == b.hasAllRegions && n.hasAllSuccessors == b.hasAllSuccessors &&
    n.allOperands == b.allOperands &&
    n.seenAttrs == b.seenAttrs && n.seenProperties == b.seenProperties &&
    n.seenOperands == b.seenOperands && n.seenRegions == b.seenRegions &&
    n.seenSuccessors == b.seenSuccessors &&
    (b.allOperandTypes ==> n.allOperandTypes) && (b.allResultTypes ==> n.allResultTypes) &&
    b.seenOperandTypes <= n.seenOperandTypes && b.seenResultTypes <= n.seenResultTypes &&
    (inRange ==> forall i :: i in n.seenOperandTypes ==> i in b.seenOperandTypes || i < |op.operands|) &&
    (inRange ==> forall i :: i in n.seenResultTypes ==> i in b.seenResultTypes || i < |op.results|)
  }

  /**
   * A variable step: at most the argument `i` of one kind is newly bound,
   * as an argument the operator has, not bound before, and for operands,
   * regions and successors only while the all-form of its kind is unset.
   */
  ghost predicate BindStep(op: Operator, b: Bindings, n: Bindings, i: nat) {
    n.hasAttrDict == b.hasAttrDict && n.hasPropDict == b.hasPropDict &&
    n.hasAllRegions == b.hasAllRegions && n.hasAllSuccessors == b.hasAllSuccessors &&
    n.allOperands == b.allOperands && n.allOperandTypes == b.allOperandTypes &&
    n.allResultTypes == b.allResultTypes &&
    n.seenOperandTypes == b.seenOperandTypes && n.seenResultTypes == b.seenResultTypes &&
    (n.seenAttrs == b.seenAttrs || (i < |op.attributes| && i !in b.seenAttrs && n.seenAttrs == b.seenAttrs + [i])) &&
    (n.seenProperties == b.seenProperties ||
     (i < |op.properties| && i !in b.seenProperties && n.seenProperties == b.seenProperties + [i])) &&
    (n.seenOperands == b.seenOperands || (i < |op.operands| && !b.allOperands && n.seenOperands == b.seenOperands + {i})) &&
    (n.seenRegions == b.seenRegions || (i < |op.regions| && !b.hasAllRegions && n.seenRegions == b.seenRegions + {i})) &&
    (n.seenSuccessors == b.seenSuccessors ||
     (i < |op.successors| && !b.hasAllSuccessors && n.seenSuccessors == b.seenSuccessors + {i}))
  }

  lemma FlagStepGrows(b: Bindings, n: Bindings)
    requires FlagStep(b, n)
    ensures Grows(b, n)
  {
  }

  lemma TypeStepGrows(op: Operator, b: Bindings, n: Bindings, inRange: bool)
    requires TypeStep(op, b, n, inRange)
    ensures Grows(b, n)
  {
  }

  lemma BindStepGrows(op: Operator, b: Bindings, n: Bindings, i: nat)
    requires BindStep(op, b, n, i)
    ensures Grows(b, n)
  {
  }

  lemma FlagStepKeepsConsistent(op: Operator, b: Bindings, n: Bindings)
    requires Consistent(op, b) && FlagStep(b, n)
    ensures Consistent(op, n)
  {
  }

  lemma TypeStepKeepsConsistent(op: Operator, b: Bindings, n: Bindings)
    requires Consistent(op, b) && TypeStep(op, b, n, true)
    ensures Consistent(op, n)
  {
  }

  lemma BindStepKeepsConsistent(op: Operator, b: Bindings, n: Bindings, i: nat)
    requires Consistent(op, b) && BindStep(op, b, n, i)
    ensures Consistent(op, n)
  {
    if n.seenAttrs != b.seenAttrs { SeqAppendNoDuplicate(b.seenAttrs, i); }
    if n.seenProperties != b.seenProperties { SeqAppendNoDuplicate(b.seenProperties, i); }
  }

  lemma TypeStepTransitive(op: Operator, b0: Bindings, b1: Bindings, b2: Bindings, r1: bool, r2: bool)
    requires TypeStep(op, b0, b1, r1) && TypeStep(op, b1, b2, r2)
    ensures TypeStep(op, b0, b2, r1 && r2)
  {
  }

  /** `attr-dict`, `prop-dict`, `operands`, `regions`, `results` and `successors` are directive steps. */
  lemma ApplyDirectiveStep(op: Operator, b: Bindings, a: Action)
    requires !a.VariableAction? && !a.TypeAction? && !a.FunctionalTypeAction?
    ensures FlagStep(b, Apply(op, b, a).next)
  {
    match a
    case AttrDictAction(ctx, withKeyword) =>
      assert Apply(op, b, a) == ParseAttrDictDirective(b, ctx, withKeyword);
      FlagStepOf(b, ParseAttrDictDirective(b, ctx, withKeyword).next);
    case PropDictAction(ctx) =>
      assert Apply(op, b, a) == ParsePropDictDirective(b, ctx);
      FlagStepOf(b, ParsePropDictDirective(b, ctx).next);
    case OperandsAction(ctx) =>
      assert Apply(op, b, a) == ParseOperandsDirective(b, ctx);
      FlagStepOf(b, ParseOperandsDirective(b, ctx).next);
    case RegionsAction(ctx) =>
      assert Apply(op, b, a) == ParseRegionsDirective(b, ctx);
      FlagStepOf(b, ParseRegionsDirective(b, ctx).next);
    case ResultsAction(ctx) =>
      assert Apply(op, b, a) == ParseResultsDirective(b, ctx);
      FlagStepOf(b, ParseResultsDirective(b, ctx).next);
    case SuccessorsAction(ctx) =>
      assert Apply(op, b, a) == ParseSuccessorsDirective(b, ctx);
      FlagStepOf(b, ParseSuccessorsDirective(b, ctx).next);
  }

  /** The states a directive can leave: unchanged, or with one flag set while it may be. */
  lemma FlagStepOf(b: Bindings, n: Bindings)
    requires n == b || n == b.(hasAttrDict := true) || n == b.(hasPropDict := true) ||
             (b.seenOperands == {} && n == b.(allOperands := true)) ||
             (b.seenRegions == {} && n == b.(hasAllRegions := true)) ||
             (b.seenSuccessors == {} && n == b.(hasAllSuccessors := true))
    ensures FlagStep(b, n)
  {
  }

  lemma TypeOperandStep(op: Operator, b: Bindings, element: Element, isRefChild: bool)
    ensures TypeStep(op, b, ParseTypeDirectiveOperand(b, element, isRefChild).next, RefersInto(op, element))
  {
  }

  /** `type` and `functional-type` are type steps. */
  lemma ApplyTypeStep(op: Operator, b: Bindings, a: Action)
    requires a.TypeAction? || a.FunctionalTypeAction?
    ensures TypeStep(op, b, Apply(op, b, a).next, ActionRefersInto(op, a))
  {
    if a.TypeAction? {
      assert Apply(op, b, a) == ParseTypeDirective(b, a.ctx, a.operand);
      TypeOperandStep(op, b, a.operand, a.ctx == RefDirectiveContext);
    } else {
      assert Apply(op, b, a) == ParseFunctionalTypeDirective(b, a.ctx, a.inputs, a.results);
      var i := ParseTypeDirectiveOperand(b, a.inputs, false);
      TypeOperandStep(op, b, a.inputs, false);
      TypeOperandStep(op, i.next, a.results, false);
      TypeStepTransitive(op, b, i.next, ParseTypeDirectiveOperand(i.next, a.results, false).next,
                         RefersInto(op, a.inputs), RefersInto(op, a.results));
    }
  }

  lemma BindKindStep(op: Operator, b: Bindings, kind: ArgKind, i: nat, name: string, ctx: Context)
    requires match kind
             case AttributeArg => i < |op.attributes|
             case PropertyArg => i < |op.properties|
             case OperandArg => i < |op.operands|
             case RegionArg => i < |op.regions|
             case ResultArg => i < |op.results|
             case SuccessorArg => i < |op.successors|
    ensures BindStep(op, b, BindKind(op, b, kind, i, name, ctx).next, i)
  {
  }

  /** The index a variable step may bind: the one its name resolves to. */
  function VariableIndex(op: Operator, name: string): nat {
    if ProbedKind(op, name).Some? then ArgIndex(op, name) else 0
  }

  /** A variable is a variable step on the argument its name resolves to. */
  lemma ApplyVariableStep(op: Operator, b: Bindings, a: Action)
    requires a.VariableAction?
    ensures BindStep(op, b, Apply(op, b, a).next, VariableIndex(op, a.name))
  {
    assert Apply(op, b, a) == ParseVariable(op, b, a.name, a.ctx);
    VariableStep(op, b, a.name, a.ctx);
  }

  lemma VariableStep(op: Operator, b: Bindings, name: string, ctx: Context)
    ensures BindStep(op, b, ParseVariable(op, b, name, ctx).next, VariableIndex(op, name))
  {
    ParseVariableProbeOrder(op, b, name, ctx);
    if ProbedKind(op, name).Some? {
      ParseVariableDispatch(op, b, name, ctx);
      BindKindStep(op, b, ProbedKind(op, name).value, ArgIndex(op, name), name, ctx);
    }
  }

  lemma VariableKeepsConsistent(op: Operator, b: Bindings, name: string, ctx: Context)
    requires Consistent(op, b)
    ensures Consistent(op, ParseVariable(op, b, name, ctx).next)
  {
    VariableStep(op, b, name, ctx);
    BindStepKeepsConsistent(op, b, ParseVariable(op, b, name, ctx).next, VariableIndex(op, name));
  }

  lemma TypeOperandKeepsConsistent(op: Operator, b: Bindings, element: Element, isRefChild: bool)
    requires Consistent(op, b) && RefersInto(op, element)
    ensures Consistent(op, ParseTypeDirectiveOperand(b, element, isRefChild).next)
  {
    TypeOperandStep(op, b, element, isRefChild);
    TypeStepKeepsConsistent(op, b, ParseTypeDirectiveOperand(b, element, isRefChild).next);
  }

  /** Each parse call the parser can make keeps the state consistent. */
  lemma ApplyKeepsConsistent(op: Operator, b: Bindings, a: Action)
    requires Consistent(op, b) && ActionRefersInto(op, a)
    ensures Consistent(op, Apply(op, b, a).next)
  {
    if a.VariableAction? {
      ApplyVariableStep(op, b, a);
      BindStepKeepsConsistent(op, b, Apply(op, b, a).next, VariableIndex(op, a.name));
    } else if a.TypeAction? || a.FunctionalTypeAction? {
      ApplyTypeStep(op, b, a);
      TypeStepKeepsConsistent(op, b, Apply(op, b, a).next);
    } else {
      ApplyDirectiveStep(op, b, a);
      FlagStepKeepsConsistent(op, b, Apply(op, b, a).next);
    }
  }

  /** Every run from the initial state, over calls the parser can make, keeps the state consistent. */
  lemma {:induction false} RunKeepsConsistent(op: Operator, b: Bindings, actions: seq<Action>)
    requires Consistent(op, b)
    requires forall i :: 0 <= i < |actions| ==> ActionRefersInto(op, actions[i])
    ensures Consistent(op, Run(op, b, actions))
    decreases |actions|
  {
    if |actions| > 0 {
      ApplyKeepsConsistent(op, b, actions[0]);
      RunKeepsConsistent(op, Apply(op, b, actions[0]).next, actions[1..]);
    }
  }

  lemma InitialIsConsistent(op: Operator)
    ensures Consistent(op, InitialBindings())
  {
  }
}
