/**
 * Legality of the elements that may appear inside optional groups, oilist
 * clauses and custom directives, and the check that adjacent oilists and
 * literals cannot be confused with each other.
 */
module FormatGroups {
  import opened Wrappers
  import opened OpSchema
  import opened FormatElements

  /**
   * `verifyOptionalGroupElement`: whether `e` may appear in an optional
   * group, and, when `isAnchor` holds, whether it may anchor the group.
   */
  function VerifyOptionalGroupElement(e: Element, isAnchor: bool): (r: Outcome<FormatError>)
    // Only an element that can be missing from the input can tell whether the group is present.
    ensures isAnchor && r.Pass? && e.AttributeVar? ==> e.attr.isOptional || e.attr.hasDefaultValue
    ensures isAnchor && r.Pass? && e.PropertyVar? ==> e.prop.hasDefaultValue && e.prop.hasOptionalParser
    ensures r.Pass? && (e.OperandVar? || e.ResultVar?) ==>
              IsVariableLength(if e.OperandVar? then e.operand else e.result)
    ensures isAnchor && (e.Literal? || e.Whitespace? || e.OptionalGroup?) ==> r == Fail(InvalidAnchor)
    decreases e
  {
    match e
    case AttributeVar(_, attr, _) =>
      if isAnchor && !(attr.isOptional || attr.hasDefaultValue) then Fail(AnchorAttributeNotOptional) else Pass
    case PropertyVar(_, prop) =>
      if isAnchor && !(prop.hasDefaultValue && prop.hasOptionalParser) then Fail(AnchorPropertyNotOptional) else Pass
    case OperandVar(_, operand) =>
      if !IsVariableLength(operand) then Fail(OptionalGroupOperandNotVariableLength) else Pass
    case ResultVar(_, result) =>
      if !IsVariableLength(result) then Fail(OptionalGroupResultNotVariableLength) else Pass
    case RegionVar(_, _) => Pass
    case TypeDir(arg, _) => VerifyOptionalGroupElement(arg, false)
    case FunctionalTypeDir(inputs, results) =>
      var i := VerifyOptionalGroupElement(inputs, false);
      if i.Fail? then i else VerifyOptionalGroupElement(results, false)
    case CustomDir(_, args) =>
      if !isAnchor then Pass else VerifyCustomAnchorChildren(args)
    case Literal(_) => if isAnchor then Fail(InvalidAnchor) else Pass
    case Whitespace(_) => if isAnchor then Fail(InvalidAnchor) else Pass
    case OptionalGroup(_, _, _, _) => if isAnchor then Fail(InvalidAnchor) else Pass
    case _ => Fail(InvalidOptionalGroupElement)
  }

  /** The children of an anchoring custom directive are all checked as anchors, except `ref`s. */
  function VerifyCustomAnchorChildren(args: seq<Element>): (r: Outcome<FormatError>)
    decreases args
  {
    if |args| == 0 then Pass
    else if args[0].RefDir? then VerifyCustomAnchorChildren(args[1..])
    else
      var c := VerifyOptionalGroupElement(args[0], true);
      if c.Fail? then c else VerifyCustomAnchorChildren(args[1..])
  }

  /** Anchoring is the stricter check: an anchor that is accepted is accepted as a plain member too. */
  lemma AnchorIsStricter(e: Element)
    ensures VerifyOptionalGroupElement(e, true).Pass? ==> VerifyOptionalGroupElement(e, false).Pass?
  {
  }

  /** An attribute-like or operand anchor that is accepted is one the ambiguity scan may skip. */
  lemma {:induction false} AcceptedAnchorIsOptionallyParsed(e: Element)
    requires e.AttributeVar? || e.PropertyVar? || e.OperandVar?
    requires VerifyOptionalGroupElement(e, true).Pass?
    ensures IsOptionallyParsed(e)
  {
  }

  /**
   * A custom directive anchoring a group is accepted iff each of its
   * children other than a `ref` is accepted as an anchor.
   */
  lemma {:induction false} CustomAnchorChildrenAll(args: seq<Element>)
    ensures VerifyCustomAnchorChildren(args).Pass? <==>
            forall i :: 0 <= i < |args| && !args[i].RefDir? ==> VerifyOptionalGroupElement(args[i], true).Pass?
    decreases args
  {
    if |args| > 0 {
      CustomAnchorChildrenAll(args[1..]);
      assert forall i :: 1 <= i < |args| ==> args[i] == args[1..][i - 1];
    }
  }

  /**
   * `verifyOptionalGroupElements`: checks each element of a branch; the
   * anchor is the element at `anchor` when it lies in this branch (the
   * then branch, or the else branch of an inverted group), else `None`.
   */
  method VerifyOptionalGroupElements(elements: seq<Element>, anchor: Option<nat>) returns (r: Outcome<FormatError>)
    ensures r.Pass? <==>
            forall i :: 0 <= i < |elements| ==> VerifyOptionalGroupElement(elements[i], anchor == Some(i)).Pass?
    ensures r.Fail? ==>
            exists i :: 0 <= i < |elements| && r == VerifyOptionalGroupElement(elements[i], anchor == Some(i)) &&
                        forall j :: 0 <= j < i ==> VerifyOptionalGroupElement(elements[j], anchor == Some(j)).Pass?
  {
    var i := 0;
    while i < |elements|
      invariant 0 <= i <= |elements|
      invariant forall j :: 0 <= j < i ==> VerifyOptionalGroupElement(elements[j], anchor == Some(j)).Pass?
    {
      var res := VerifyOptionalGroupElement(elements[i], anchor == Some(i));
      if res.Fail? {
        return res;
      }
      i := i + 1;
    }
    return Pass;
  }

  /** What `verifyOIListParsingElement` demands of one collected variable. */
  function OIListVariableCheck(v: Element): (r: Outcome<FormatError>)
    ensures r.Pass? <==>
            (v.AttributeVar? && (v.attr.isOptional || v.attr.hasDefaultValue)) ||
            (v.PropertyVar? && v.prop.hasDefaultValue) ||
            (v.OperandVar? && IsVariableLength(v.operand)) ||
            (v.ResultVar? && IsVariableLength(v.result)) ||
            v.RegionVar?
  {
    match v
    case AttributeVar(_, attr, _) =>
      if !attr.isOptional && !attr.hasDefaultValue then Fail(OIListAttributeNotOptional) else Pass
    case PropertyVar(_, prop) =>
      if !prop.hasDefaultValue then Fail(OIListPropertyNotDefaulted) else Pass
    case OperandVar(_, operand) =>
      if !IsVariableLength(operand) then Fail(OIListOperandNotVariableLength) else Pass
    case ResultVar(_, result) =>
      if !IsVariableLength(result) then Fail(OIListResultNotVariableLength) else Pass
    case RegionVar(_, _) => Pass
    case _ => Fail(InvalidOIListElement)
  }

  /**
   * `verifyOIListParsingElement`: every variable collected from an oilist
   * parsing element must be one that can be absent; successors cannot.
   */
  method VerifyOIListParsingElement(e: Element) returns (r: Outcome<FormatError>)
    ensures r.Pass? <==> forall i :: 0 <= i < |Variables(e)| ==> OIListVariableCheck(Variables(e)[i]).Pass?
    ensures r.Pass? ==> forall i :: 0 <= i < |Variables(e)| ==> !Variables(e)[i].SuccessorVar?
    ensures r.Fail? ==>
            exists i :: 0 <= i < |Variables(e)| && r == OIListVariableCheck(Variables(e)[i]) &&
                        forall j :: 0 <= j < i ==> OIListVariableCheck(Variables(e)[j]).Pass?
  {
    var vars := Collect(e, []);
    assert vars == Variables(e);
    r := FirstOIListVariableFailure(vars);
  }

  /** The loop of `verifyOIListParsingElement` over the collected variables. */
  method FirstOIListVariableFailure(vars: seq<Element>) returns (r: Outcome<FormatError>)
    ensures r.Pass? <==> forall i :: 0 <= i < |vars| ==> OIListVariableCheck(vars[i]).Pass?
    ensures r.Pass? ==> forall i :: 0 <= i < |vars| ==> !vars[i].SuccessorVar?
    ensures r.Fail? ==>
            exists i :: 0 <= i < |vars| && r == OIListVariableCheck(vars[i]) &&
                        forall j :: 0 <= j < i ==> OIListVariableCheck(vars[j]).Pass?
  {
    var i := 0;
    while i < |vars|
      invariant 0 <= i <= |vars|
      invariant forall j :: 0 <= j < i ==> OIListVariableCheck(vars[j]).Pass?
    {
      var res := OIListVariableCheck(vars[i]);
      if res.Fail? {
        return res;
      }
      i := i + 1;
    }
    return Pass;
  }

  /** The elements a custom directive may take as arguments. */
  function CustomArgumentCheck(a: Element): (r: Outcome<FormatError>)
    ensures r.Pass? ==> a.AttrDictDir? || a.PropDictDir? || a.AttributeVar? || a.OperandVar? ||
                        a.PropertyVar? || a.RefDir? || a.RegionVar? || a.SuccessorVar? ||
                        a.StringElem? || (a.TypeDir? && (a.arg.OperandVar? || a.arg.ResultVar?))
    ensures a.ResultVar? || a.Literal? || a.OptionalGroup? || a.CustomDir? ==> r == Fail(CustomArgumentNotVariable)
    ensures a.TypeDir? && !(a.arg.OperandVar? || a.arg.ResultVar?) ==> r == Fail(CustomTypeArgumentNotVariable)
  {
    if !(a.AttrDictDir? || a.PropDictDir? || a.AttributeVar? || a.OperandVar? || a.PropertyVar? ||
         a.RefDir? || a.RegionVar? || a.SuccessorVar? || a.StringElem? || a.TypeDir?) then
      Fail(CustomArgumentNotVariable)
    else if a.TypeDir? && !(a.arg.OperandVar? || a.arg.ResultVar?) then
      Fail(CustomTypeArgumentNotVariable)
    else Pass
  }

  /** `verifyCustomDirectiveArguments`: each argument in turn, stopping at the first bad one. */
  method VerifyCustomDirectiveArguments(arguments: seq<Element>) returns (r: Outcome<FormatError>)
    ensures r.Pass? <==> forall i :: 0 <= i < |arguments| ==> CustomArgumentCheck(arguments[i]).Pass?
    ensures r.Fail? ==>
            exists i :: 0 <= i < |arguments| && r == CustomArgumentCheck(arguments[i]) &&
                        forall j :: 0 <= j < i ==> CustomArgumentCheck(arguments[j]).Pass?
  {
    var i := 0;
    while i < |arguments|
      invariant 0 <= i <= |arguments|
      invariant forall j :: 0 <= j < i ==> CustomArgumentCheck(arguments[j]).Pass?
    {
      var res := CustomArgumentCheck(arguments[i]);
      if res.Fail? {
        return res;
      }
      i := i + 1;
    }
    return Pass;
  }

  /** The keywords of an oilist's clauses, in order. */
  function ClauseLiterals(clauses: seq<OIClause>): (r: seq<string>)
    ensures |r| == |clauses| && forall i :: 0 <= i < |clauses| ==> r[i] == clauses[i].literal
  {
    seq(|clauses|, i requires 0 <= i < |clauses| => clauses[i].literal)
  }

  /**
   * The keywords of the run of oilists that ends just before position
   * `i`: the literals an element at `i` must not repeat.
   */
  function PrecedingRunLiterals(es: seq<Element>, i: nat): (r: seq<string>)
    requires i <= |es|
    ensures i > 0 && es[i - 1].OIList? ==>
            forall l :: l in ClauseLiterals(es[i - 1].clauses) ==> l in r
    ensures i == 0 || !es[i - 1].OIList? ==> r == []
  {
    if i == 0 || !es[i - 1].OIList? then []
    else PrecedingRunLiterals(es, i - 1) + ClauseLiterals(es[i - 1].clauses)
  }

  /** The element at `i` repeats a keyword of the oilists directly before it. */
  predicate CollidesAt(es: seq<Element>, i: nat)
    requires i < |es|
  {
    (es[i].OIList? && exists l :: l in ClauseLiterals(es[i].clauses) && l in PrecedingRunLiterals(es, i)) ||
    (es[i].Literal? && es[i].spelling in PrecedingRunLiterals(es, i))
  }

  /**
   * `verifyOIListElements`: the prohibited-literal list holds the keywords
   * of the oilists just passed; a literal or any other element clears it.
   */
  method VerifyOIListElements(elements: seq<Element>) returns (r: Outcome<FormatError>)
    ensures r.Pass? <==> forall i :: 0 <= i < |elements| ==> !CollidesAt(elements, i)
    ensures r.Fail? ==>
            exists i :: 0 <= i < |elements| && CollidesAt(elements, i) &&
                        (forall j :: 0 <= j < i ==> !CollidesAt(elements, j)) &&
                        (if elements[i].OIList?
                         then r.error.OIListLiteralRepeated? &&
                              r.error.spelling in ClauseLiterals(elements[i].clauses) &&
                              r.error.spelling in PrecedingRunLiterals(elements, i)
                         else r == Fail(LiteralAfterOIList(elements[i].spelling)))
  {
    var prohibitedLiterals: seq<string> := [];
    var i := 0;
    while i < |elements|
      invariant 0 <= i <= |elements|
      invariant prohibitedLiterals == PrecedingRunLiterals(elements, i)
      invariant forall j :: 0 <= j < i ==> !CollidesAt(elements, j)
    {
      var it := elements[i];
      if it.OIList? {
        var literals := ClauseLiterals(it.clauses);
        if |prohibitedLiterals| != 0 {
          var k := 0;
          while k < |literals|
            invariant 0 <= k <= |literals|
            invariant forall m :: 0 <= m < k ==> literals[m] !in prohibitedLiterals
          {
            if literals[k] in prohibitedLiterals {
              assert CollidesAt(elements, i);
              return Fail(OIListLiteralRepeated(literals[k]));
            }
            k := k + 1;
          }
        }
        assert !CollidesAt(elements, i);
        prohibitedLiterals := prohibitedLiterals + literals;
      } else if it.Literal? {
        if it.spelling in prohibitedLiterals {
          assert CollidesAt(elements, i);
          return Fail(LiteralAfterOIList(it.spelling));
        }
        prohibitedLiterals := [];
      } else {
        prohibitedLiterals := [];
      }
      i := i + 1;
    }
    return Pass;
  }

  /** A plain literal between two oilists separates them: the second may reuse the first's keywords. */
  lemma LiteralSeparatesOILists(es: seq<Element>, i: nat)
    requires i + 2 < |es| && es[i].OIList? && es[i + 1].Literal? && es[i + 2].OIList?
    ensures PrecedingRunLiterals(es, i + 2) == []
    ensures !CollidesAt(es, i + 2)
  {
  }

  /** Two oilists in a row collide as soon as they share a keyword. */
  lemma AdjacentOIListsShareKeyword(es: seq<Element>, i: nat, l: string)
    requires i + 1 < |es| && es[i].OIList? && es[i + 1].OIList?
    requires l in ClauseLiterals(es[i].clauses) && l in ClauseLiterals(es[i + 1].clauses)
    ensures CollidesAt(es, i + 1)
  {
  }
}
