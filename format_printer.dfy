/**
 * The spacing machine of the printer generator. The generator walks the
 * format's elements in order, threading two flags: whether a space should
 * be emitted before the next element, and whether the last element printed
 * was punctuation. Each element's printer is reduced to the actions it
 * makes the generated printer perform; the C++ text of those actions is
 * not modelled.
 */
module FormatPrinter {
  import opened Wrappers
  import opened FormatElements

  /** The two flags threaded through the printer generator. */
  datatype Spacing = Spacing(shouldEmitSpace: bool, lastWasPunctuation: bool)

  /** The flags before the first element of a format. */
  const InitialSpacing: Spacing := Spacing(true, false)

  /** What the generated printer does, in order. */
  datatype PrintAction =
    | Space                          // `_odsPrinter << ' '`
    | Text(spelling: string)         // a literal
    | Newline                        // `printNewline()`
    | AttrDict(withKeyword: bool)    // the attribute dictionary
    | PropDict                       // the property dictionary
    | Emit(e: Element)               // the element's own printer
    // An optional group: the check of its anchor, then the two branches.
    | Group(anchor: Element, inverted: bool, thenActions: seq<PrintAction>, elseActions: seq<PrintAction>)
    // A clause of an oilist, printed when any of its variables is present.
    | Clause(variables: seq<Element>, actions: seq<PrintAction>)

  /** The actions an element's printer produces and the flags it leaves. */
  datatype Step = Step(actions: seq<PrintAction>, after: Spacing)

  /** `actions` followed by `rest`, ending with the flags `rest` leaves. */
  function Then(actions: seq<PrintAction>, rest: Step): Step {
    Step(actions + rest.actions, rest.after)
  }

  /** `isalpha` in the C locale. */
  predicate IsAlpha(c: char) {
    'a' <= c <= 'z' || 'A' <= c <= 'Z'
  }

  /** A literal that is a single opening bracket: no space follows it. */
  predicate IsOpeningBracket(value: string) {
    |value| == 1 && value[0] in "<({["
  }

  /** A literal counts as punctuation when it starts with neither `_` nor a letter. */
  predicate StartsWithPunctuation(value: string) {
    |value| > 0 && value[0] != '_' && !IsAlpha(value[0])
  }

  /**
   * `genLiteralPrinter`. `spaceBefore` stands for `shouldEmitSpaceBefore`,
   * whose definition is not part of this model.
   */
  function LiteralStep(value: string, spaceBefore: (string, bool) -> bool, s: Spacing): Step {
    Step((if s.shouldEmitSpace && spaceBefore(value, s.lastWasPunctuation) then [Space] else []) + [Text(value)],
         Spacing(!IsOpeningBracket(value), StartsWithPunctuation(value)))
  }

  /** `genSpacePrinter`: a non-empty space is printed; either kind suppresses the next automatic space. */
  function SpaceStep(nonEmpty: bool): Step {
    if nonEmpty then Step([Space], Spacing(false, false))
    else Step([], Spacing(false, true))
  }

  /** The elements that reach the common tail of `genElementPrinter`. */
  predicate IsDefaultPrinted(e: Element) {
    !(e.Literal? || e.Whitespace? || e.OptionalGroup? || e.OIList? || e.AttrDictDir? || e.PropDictDir?)
  }

  /** The common tail of `genElementPrinter`: an optional leading space, then the element. */
  function DefaultStep(e: Element, s: Spacing): Step {
    Step((if s.shouldEmitSpace || !s.lastWasPunctuation then [Space] else []) + [Emit(e)], Spacing(true, false))
  }

  /** The branch of an optional group that holds its anchor. */
  function AnchorBranch(g: Element): seq<Element>
    requires g.OptionalGroup?
  {
    if g.anchorInElse then g.elseElements else g.thenElements
  }

  /**
   * The anchor of an optional group is left out of the printed branches
   * when it is a unit attribute or property that is neither the first
   * then-element nor the first else-element: its presence alone is what
   * the anchor check tests.
   */
  predicate ElidesAnchor(g: Element)
    requires g.OptionalGroup?
  {
    g.anchorIndex < |AnchorBranch(g)| && g.anchorIndex != 0 &&
    IsAttributeLike(AnchorBranch(g)[g.anchorIndex]) && IsUnit(AnchorBranch(g)[g.anchorIndex])
  }

  /** `es` without its element at position `k`. */
  function RemoveAt(es: seq<Element>, k: nat): (r: seq<Element>)
    requires k < |es|
    ensures |r| + 1 == |es|
    ensures forall i :: 0 <= i < |r| ==> r[i] == if i < k then es[i] else es[i + 1]
  {
    es[..k] + es[k + 1..]
  }

  /** The then-elements an optional group's printer prints. */
  function PrintedThenElements(g: Element): (r: seq<Element>)
    requires g.OptionalGroup?
    ensures ElidesAnchor(g) && !g.anchorInElse ==>
              |r| + 1 == |g.thenElements| &&
              forall i :: 0 <= i < |r| ==> r[i] == if i < g.anchorIndex then g.thenElements[i] else g.thenElements[i + 1]
    ensures !(ElidesAnchor(g) && !g.anchorInElse) ==> r == g.thenElements
  {
    if ElidesAnchor(g) && !g.anchorInElse then RemoveAt(g.thenElements, g.anchorIndex)
    else g.thenElements
  }

  /** The else-elements an optional group's printer prints. */
  function PrintedElseElements(g: Element): (r: seq<Element>)
    requires g.OptionalGroup?
    ensures ElidesAnchor(g) && g.anchorInElse ==>
              |r| + 1 == |g.elseElements| &&
              forall i :: 0 <= i < |r| ==> r[i] == if i < g.anchorIndex then g.elseElements[i] else g.elseElements[i + 1]
    ensures !(ElidesAnchor(g) && g.anchorInElse) ==> r == g.elseElements
  {
    if ElidesAnchor(g) && g.anchorInElse then RemoveAt(g.elseElements, g.anchorIndex)
    else g.elseElements
  }

  /** The anchor element of an optional group, when its index names one. */
  function AnchorOf(g: Element): Element
    requires g.OptionalGroup?
  {
    if g.anchorIndex < |AnchorBranch(g)| then AnchorBranch(g)[g.anchorIndex] else g
  }

  /**
   * The two printed branches together are the group's elements with the
   * elided anchor, and only it, removed once: nothing else is dropped and
   * the other branch is printed whole.
   */
  lemma {:induction false} ElidedAnchorDroppedOnce(g: Element)
    requires g.OptionalGroup?
    ensures ElidesAnchor(g) ==>
              multiset(PrintedThenElements(g)) + multiset(PrintedElseElements(g)) + multiset{AnchorOf(g)} ==
              multiset(g.thenElements) + multiset(g.elseElements)
    ensures !ElidesAnchor(g) ==>
              PrintedThenElements(g) == g.thenElements && PrintedElseElements(g) == g.elseElements
  {
    if ElidesAnchor(g) {
      var b := AnchorBranch(g);
      var k := g.anchorIndex;
      assert b == b[..k] + [b[k]] + b[k + 1..];
      if g.anchorInElse {
        assert PrintedElseElements(g) == b[..k] + b[k + 1..];
      } else {
        assert PrintedThenElements(g) == b[..k] + b[k + 1..];
      }
    }
  }

  /**
   * Every literal of the element, including oilist keywords, is non-empty,
   * as the format lexer guarantees: the literal printer reads the first
   * character.
   */
  predicate LiteralsNonEmpty(e: Element)
    decreases e
  {
    match e
    case Literal(value) => |value| > 0
    case OptionalGroup(thenElements, elseElements, _, _) =>
      (forall i :: 0 <= i < |thenElements| ==> LiteralsNonEmpty(thenElements[i])) &&
      (forall i :: 0 <= i < |elseElements| ==> LiteralsNonEmpty(elseElements[i]))
    case OIList(clauses) =>
      forall i :: 0 <= i < |clauses| ==>
        |clauses[i].literal| > 0 &&
        forall j :: 0 <= j < |clauses[i].elements| ==> LiteralsNonEmpty(clauses[i].elements[j])
    case _ => true
  }

  /** Dropping the elided anchor keeps the literals non-empty. */
  lemma LiteralsNonEmptyElided(g: Element)
    requires g.OptionalGroup? && LiteralsNonEmpty(g)
    ensures forall i :: 0 <= i < |PrintedThenElements(g)| ==> LiteralsNonEmpty(PrintedThenElements(g)[i])
    ensures forall i :: 0 <= i < |PrintedElseElements(g)| ==> LiteralsNonEmpty(PrintedElseElements(g)[i])
  {
  }

  /** `genElementPrinter` on one element. */
  function PrintElement(e: Element, spaceBefore: (string, bool) -> bool, s: Spacing): Step
    decreases e, 1
  {
    match e
    case Literal(value) => LiteralStep(value, spaceBefore, s)
    case Whitespace(value) =>
      if value == "\\n" then Step([Newline], s) else SpaceStep(value != "")
    case OptionalGroup(_, _, _, anchorInElse) =>
      var t := PrintElements(PrintedThenElements(e), spaceBefore, s);
      // The else-branch starts from the flags the then-branch left.
      var f := PrintElements(PrintedElseElements(e), spaceBefore, t.after);
      Step([Group(AnchorOf(e), anchorInElse, t.actions, f.actions)], f.after)
    case OIList(clauses) => PrintClauses(clauses, spaceBefore, s)
    case AttrDictDir(withKeyword) => Step([AttrDict(withKeyword)], s.(lastWasPunctuation := false))
    case PropDictDir => Step([PropDict], s.(lastWasPunctuation := false))
    case _ => DefaultStep(e, s)
  }

  /** The element printers of `es` in turn, each starting from the flags the previous one left. */
  function PrintElements(es: seq<Element>, spaceBefore: (string, bool) -> bool, s: Spacing): Step
    decreases es, 0
  {
    if |es| == 0 then Step([], s)
    else
      var h := PrintElement(es[0], spaceBefore, s);
      Then(h.actions, PrintElements(es[1..], spaceBefore, h.after))
  }

  /** One clause of an oilist: its keyword, then its elements unless it is a lone unit variable. */
  function PrintClause(c: OIClause, spaceBefore: (string, bool) -> bool, s: Spacing): Step
    decreases c, 1
  {
    var lit := LiteralStep(c.literal, spaceBefore, s);
    var body := if GetUnitVariableParsingElement(c.elements).None?
                then PrintElements(c.elements, spaceBefore, lit.after)
                else Step([], lit.after);
    Step([Clause(VariablesOfAll(c.elements), lit.actions + body.actions)], body.after)
  }

  /** The clauses of an oilist in turn. */
  function PrintClauses(cs: seq<OIClause>, spaceBefore: (string, bool) -> bool, s: Spacing): Step
    decreases cs
  {
    if |cs| == 0 then Step([], s)
    else
      var h := PrintClause(cs[0], spaceBefore, s);
      Then(h.actions, PrintClauses(cs[1..], spaceBefore, h.after))
  }

  /**
   * `genLiteralPrinter`: a space is printed first only when one is due and
   * `shouldEmitSpaceBefore` allows it; afterwards a space is due unless the
   * literal is a single opening bracket, and the literal counts as
   * punctuation unless it starts with `_` or a letter.
   */
  method GenLiteralPrinter(value: string, spaceBefore: (string, bool) -> bool,
                           shouldEmitSpace: bool, lastWasPunctuation: bool)
    returns (actions: seq<PrintAction>, shouldEmitSpace': bool, lastWasPunctuation': bool)
    requires |value| > 0
    ensures actions == (if shouldEmitSpace && spaceBefore(value, lastWasPunctuation) then [Space, Text(value)] else [Text(value)])
    ensures shouldEmitSpace' <==> !(|value| == 1 && value[0] in "<({[")
    ensures lastWasPunctuation' <==> value[0] != '_' && !('a' <= value[0] <= 'z') && !('A' <= value[0] <= 'Z')
    ensures Step(actions, Spacing(shouldEmitSpace', lastWasPunctuation')) ==
            LiteralStep(value, spaceBefore, Spacing(shouldEmitSpace, lastWasPunctuation))
  {
    actions := [];
    if shouldEmitSpace && spaceBefore(value, lastWasPunctuation) {
      actions := actions + [Space];
    }
    actions := actions + [Text(value)];
    var front := value[0];
    shouldEmitSpace' := |value| != 1 || !(front == '<' || front == '(' || front == '{' || front == '[');
    lastWasPunctuation' := front != '_' && !IsAlpha(front);
  }

  /** `genSpacePrinter`: both kinds of space clear `shouldEmitSpace`; only the empty one counts as punctuation. */
  method GenSpacePrinter(value: bool) returns (actions: seq<PrintAction>, shouldEmitSpace': bool, lastWasPunctuation': bool)
    ensures actions == (if value then [Space] else [])
    ensures !shouldEmitSpace' && (lastWasPunctuation' <==> !value)
    ensures Step(actions, Spacing(shouldEmitSpace', lastWasPunctuation')) == SpaceStep(value)
  {
    actions := [];
    if value {
      actions := [Space];
      lastWasPunctuation' := false;
    } else {
      lastWasPunctuation' := true;
    }
    shouldEmitSpace' := false;
  }

  /** `genElementPrinter`: the printer of one element and the flags it leaves. */
  method GenElementPrinter(e: Element, spaceBefore: (string, bool) -> bool, s: Spacing)
    returns (actions: seq<PrintAction>, s': Spacing)
    requires LiteralsNonEmpty(e)
    ensures Step(actions, s') == PrintElement(e, spaceBefore, s)
    decreases e, 1
  {
    match e {
      case Literal(value) =>
        var a, emit, punct := GenLiteralPrinter(value, spaceBefore, s.shouldEmitSpace, s.lastWasPunctuation);
        return a, Spacing(emit, punct);
      case Whitespace(value) =>
        if value == "\\n" {
          return [Newline], s;
        }
        var a, emit, punct := GenSpacePrinter(value != "");
        return a, Spacing(emit, punct);
      case OptionalGroup(_, _, _, _) =>
        actions, s' := GenOptionalGroupPrinter(e, spaceBefore, s);
      case OIList(clauses) =>
        actions, s' := GenOIListPrinter(clauses, spaceBefore, s);
      case AttrDictDir(withKeyword) =>
        return [AttrDict(withKeyword)], s.(lastWasPunctuation := false);
      case PropDictDir =>
        return [PropDict], s.(lastWasPunctuation := false);
      case _ =>
        actions := [];
        if s.shouldEmitSpace || !s.lastWasPunctuation {
          actions := [Space];
        }
        return actions + [Emit(e)], Spacing(true, false);
    }
  }

  /** The optional-group case of `genElementPrinter`: both branches, each without an elided anchor. */
  method GenOptionalGroupPrinter(g: Element, spaceBefore: (string, bool) -> bool, s: Spacing)
    returns (actions: seq<PrintAction>, s': Spacing)
    requires g.OptionalGroup? && LiteralsNonEmpty(g)
    ensures Step(actions, s') == PrintElement(g, spaceBefore, s)
    decreases g, 0
  {
    var kept := PrintedThenElements(g);
    LiteralsNonEmptyElided(g);
    var thenActions, s1 := GenElementPrinters(kept, spaceBefore, s);
    var elseActions, s2 := GenElementPrinters(PrintedElseElements(g), spaceBefore, s1);
    return [Group(AnchorOf(g), g.anchorInElse, thenActions, elseActions)], s2;
  }

  /** One clause of an oilist: guarded on its variables, `collect`ed in order. */
  method GenClausePrinter(clause: OIClause, spaceBefore: (string, bool) -> bool, s: Spacing)
    returns (actions: seq<PrintAction>, s': Spacing)
    requires |clause.literal| > 0 && forall j :: 0 <= j < |clause.elements| ==> LiteralsNonEmpty(clause.elements[j])
    ensures Step(actions, s') == PrintClause(clause, spaceBefore, s)
    decreases clause
  {
    var lit, emit, punct := GenLiteralPrinter(clause.literal, spaceBefore, s.shouldEmitSpace, s.lastWasPunctuation);
    var body: seq<PrintAction> := [];
    s' := Spacing(emit, punct);
    if GetUnitVariableParsingElement(clause.elements).None? {
      body, s' := GenElementPrinters(clause.elements, spaceBefore, s');
    }
    var vars := CollectAll(clause.elements, []);
    assert vars == VariablesOfAll(clause.elements);
    assert lit == LiteralStep(clause.literal, spaceBefore, s).actions;
    actions := [Clause(vars, lit + body)];
  }

  /** The oilist case of `genElementPrinter`: each clause's keyword, then its elements unless it is a lone unit variable. */
  method GenOIListPrinter(clauses: seq<OIClause>, spaceBefore: (string, bool) -> bool, s: Spacing)
    returns (actions: seq<PrintAction>, s': Spacing)
    requires LiteralsNonEmpty(OIList(clauses))
    ensures Step(actions, s') == PrintClauses(clauses, spaceBefore, s)
    decreases clauses
  {
    actions, s' := [], s;
    var c := 0;
    while c < |clauses|
      invariant 0 <= c <= |clauses|
      invariant Then(actions, PrintClauses(clauses[c..], spaceBefore, s')) == PrintClauses(clauses, spaceBefore, s)
    {
      assert clauses[c..][1..] == clauses[c + 1..];
      var a, s1 := GenClausePrinter(clauses[c], spaceBefore, s');
      actions := actions + a;
      s' := s1;
      c := c + 1;
    }
    assert clauses[c..] == [];
  }

  /** The element printers of `es` in turn: the loop of an optional group's branch and of the whole format. */
  method GenElementPrinters(es: seq<Element>, spaceBefore: (string, bool) -> bool, s: Spacing)
    returns (actions: seq<PrintAction>, s': Spacing)
    requires forall i :: 0 <= i < |es| ==> LiteralsNonEmpty(es[i])
    ensures Step(actions, s') == PrintElements(es, spaceBefore, s)
    decreases es, 0
  {
    actions, s' := [], s;
    var i := 0;
    while i < |es|
      invariant 0 <= i <= |es|
      invariant Then(actions, PrintElements(es[i..], spaceBefore, s')) == PrintElements(es, spaceBefore, s)
    {
      assert es[i..][1..] == es[i + 1..];
      var a, s1 := GenElementPrinter(es[i], spaceBefore, s');
      actions, s' := actions + a, s1;
      i := i + 1;
    }
    assert es[i..] == [];
  }

  /** `genPrinter`: the element printers of the whole format, from the initial flags. */
  method GenPrinter(elements: seq<Element>, spaceBefore: (string, bool) -> bool) returns (actions: seq<PrintAction>)
    requires forall i :: 0 <= i < |elements| ==> LiteralsNonEmpty(elements[i])
    ensures actions == PrintElements(elements, spaceBefore, InitialSpacing).actions
  {
    var s;
    actions, s := GenElementPrinters(elements, spaceBefore, Spacing(true, false));
  }

  /** Printing a concatenation prints the first part, then the second from the flags the first left. */
  lemma {:induction false} PrintElementsAppend(a: seq<Element>, b: seq<Element>, spaceBefore: (string, bool) -> bool, s: Spacing)
    ensures var first := PrintElements(a, spaceBefore, s);
            PrintElements(a + b, spaceBefore, s) == Then(first.actions, PrintElements(b, spaceBefore, first.after))
    decreases |a|
  {
    if |a| == 0 {
      assert a + b == b;
    } else {
      assert (a + b)[0] == a[0];
      assert (a + b)[1..] == a[1..] + b;
      var h := PrintElement(a[0], spaceBefore, s);
      PrintElementsAppend(a[1..], b, spaceBefore, h.after);
    }
  }

  /** Printing a list that ends with `e`: the rest of the list, then `e` from the flags the rest left. */
  lemma PrintElementsSnoc(a: seq<Element>, e: Element, spaceBefore: (string, bool) -> bool, s: Spacing)
    ensures var first := PrintElements(a, spaceBefore, s);
            PrintElements(a + [e], spaceBefore, s) == Then(first.actions, PrintElement(e, spaceBefore, first.after))
  {
    PrintElementsAppend(a, [e], spaceBefore, s);
    var first := PrintElements(a, spaceBefore, s);
    var h := PrintElement(e, spaceBefore, first.after);
    assert PrintElements([e], spaceBefore, first.after) == Then(h.actions, Step([], h.after));
  }

  /** An element after which the flags no longer depend on what came before it. */
  predicate IsFlat(e: Element) {
    (e.Literal? && |e.spelling| > 0) || (e.Whitespace? && e.value != "\\n") || IsDefaultPrinted(e)
  }

  /**
   * Whether the printer separates an element from a following variable or
   * directive by a space: always, except after a single opening bracket and
   * after an explicit empty space.
   */
  predicate SeparatesFromNext(prev: Element) {
    !(prev.Literal? && IsOpeningBracket(prev.spelling)) && !(prev.Whitespace? && prev.value == "")
  }

  /**
   * Whether the printer puts a space between `prev` and a following
   * literal: never after an explicit space or an opening bracket; otherwise
   * as `shouldEmitSpaceBefore` decides, told whether `prev` was punctuation.
   */
  predicate SeparatesFromLiteral(prev: Element, value: string, spaceBefore: (string, bool) -> bool) {
    || (prev.Literal? && !IsOpeningBracket(prev.spelling) && spaceBefore(value, StartsWithPunctuation(prev.spelling)))
    || (IsDefaultPrinted(prev) && spaceBefore(value, false))
  }

  /** The flags a flat element leaves, whatever came before it. */
  lemma FlatFlags(e: Element, spaceBefore: (string, bool) -> bool, s: Spacing)
    requires IsFlat(e)
    ensures var f := PrintElement(e, spaceBefore, s).after;
            && (f.shouldEmitSpace <==> IsDefaultPrinted(e) || (e.Literal? && !IsOpeningBracket(e.spelling)))
            && (f.lastWasPunctuation <==> (e.Literal? && StartsWithPunctuation(e.spelling)) || e == Whitespace(""))
  {
  }

  /**
   * Whatever precedes it, a variable or directive printed after a flat
   * element is preceded by a space exactly when `SeparatesFromNext` says
   * so.
   */
  lemma {:induction false} SpaceBeforeElement(es: seq<Element>, prev: Element, next: Element,
                                              spaceBefore: (string, bool) -> bool, s: Spacing)
    requires IsFlat(prev) && IsDefaultPrinted(next)
    ensures PrintElements(es + [prev, next], spaceBefore, s).actions ==
            PrintElements(es + [prev], spaceBefore, s).actions + (if SeparatesFromNext(prev) then [Space] else []) + [Emit(next)]
  {
    assert es + [prev, next] == (es + [prev]) + [next];
    PrintElementsSnoc(es + [prev], next, spaceBefore, s);
    var before := PrintElements(es + [prev], spaceBefore, s);
    PrintElementsSnoc(es, prev, spaceBefore, s);
    FlatFlags(prev, spaceBefore, PrintElements(es, spaceBefore, s).after);
    if prev.Literal? && IsOpeningBracket(prev.spelling) {
      assert StartsWithPunctuation(prev.spelling);
    }
  }

  /**
   * Whatever precedes it, a literal printed after a flat element is
   * preceded by a space exactly when `SeparatesFromLiteral` says so.
   */
  lemma {:induction false} SpaceBeforeLiteral(es: seq<Element>, prev: Element, value: string,
                                              spaceBefore: (string, bool) -> bool, s: Spacing)
    requires IsFlat(prev)
    ensures PrintElements(es + [prev, Literal(value)], spaceBefore, s).actions ==
            PrintElements(es + [prev], spaceBefore, s).actions +
            (if SeparatesFromLiteral(prev, value, spaceBefore) then [Space] else []) + [Text(value)]
  {
    assert es + [prev, Literal(value)] == (es + [prev]) + [Literal(value)];
    PrintElementsSnoc(es + [prev], Literal(value), spaceBefore, s);
    PrintElementsSnoc(es, prev, spaceBefore, s);
    FlatFlags(prev, spaceBefore, PrintElements(es, spaceBefore, s).after);
  }

  /** A `\\n` element adds a newline and changes nothing else: the printing on either side is as without it. */
  lemma {:induction false} NewlineIsTransparent(a: seq<Element>, b: seq<Element>, spaceBefore: (string, bool) -> bool, s: Spacing)
    ensures var first := PrintElements(a, spaceBefore, s);
            var rest := PrintElements(b, spaceBefore, first.after);
            && PrintElements(a + b, spaceBefore, s) == Then(first.actions, rest)
            && PrintElements(a + [Whitespace("\\n")] + b, spaceBefore, s) == Then(first.actions + [Newline], rest)
  {
    PrintElementsAppend(a, b, spaceBefore, s);
    PrintElementsAppend(a + [Whitespace("\\n")], b, spaceBefore, s);
    PrintElementsSnoc(a, Whitespace("\\n"), spaceBefore, s);
  }

  /**
   * `attr-dict` and `prop-dict` print their own leading space: none is
   * emitted before them, they keep `shouldEmitSpace`, and a variable or
   * directive that follows one is always preceded by a space.
   */
  lemma {:induction false} SpaceAfterDictionary(es: seq<Element>, dict: Element, next: Element,
                                                spaceBefore: (string, bool) -> bool, s: Spacing)
    requires (dict.AttrDictDir? || dict.PropDictDir?) && IsDefaultPrinted(next)
    ensures var before := PrintElements(es, spaceBefore, s);
            var printed := if dict.AttrDictDir? then AttrDict(dict.withKeyword) else PropDict;
            && PrintElements(es + [dict], spaceBefore, s) ==
                 Step(before.actions + [printed], before.after.(lastWasPunctuation := false))
            && PrintElements(es + [dict, next], spaceBefore, s).actions == before.actions + [printed, Space, Emit(next)]
  {
    assert es + [dict, next] == (es + [dict]) + [next];
    PrintElementsSnoc(es, dict, spaceBefore, s);
    PrintElementsSnoc(es + [dict], next, spaceBefore, s);
  }

  /** The generated printer puts a space before the format's first element when that is a variable or directive. */
  lemma FirstElementIsSpaced(elements: seq<Element>, spaceBefore: (string, bool) -> bool)
    requires |elements| > 0 && IsDefaultPrinted(elements[0])
    ensures var actions := PrintElements(elements, spaceBefore, InitialSpacing).actions;
            |actions| >= 2 && actions[0] == Space && actions[1] == Emit(elements[0])
  {
  }

  /**
   * The flags after an optional group are those after its printed
   * then-elements followed by its printed else-elements, as though both
   * branches were printed one after the other.
   */
  lemma GroupFlagsFollowBothBranches(g: Element, spaceBefore: (string, bool) -> bool, s: Spacing)
    requires g.OptionalGroup?
    ensures PrintElement(g, spaceBefore, s).after ==
            PrintElements(PrintedThenElements(g) + PrintedElseElements(g), spaceBefore, s).after
  {
    PrintElementsAppend(PrintedThenElements(g), PrintedElseElements(g), spaceBefore, s);
  }

  /** An oilist clause that is a lone unit variable prints only its keyword: the keyword's presence is the value. */
  lemma UnitClausePrintsKeywordOnly(c: OIClause, spaceBefore: (string, bool) -> bool, s: Spacing)
    requires GetUnitVariableParsingElement(c.elements).Some?
    ensures var lit := LiteralStep(c.literal, spaceBefore, s);
            PrintClause(c, spaceBefore, s) == Step([Clause(c.elements, lit.actions)], lit.after)
  {
    VariablesAreVariables(c.elements[0]);
    assert c.elements[1..] == [];
    assert VariablesOfAll(c.elements) == Variables(c.elements[0]) + VariablesOfAll([]);
    assert VariablesOfAll(c.elements) == c.elements;
    var lit := LiteralStep(c.literal, spaceBefore, s);
    assert lit.actions + [] == lit.actions;
  }
}
