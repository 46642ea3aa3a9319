/**
 * Type resolvers derived from an operation's traits: before the operand
 * and result types are checked, each trait that relates the types of
 * several arguments names, for arguments whose type the format does not
 * bind, another argument whose type is bound and from which it can be
 * recovered.
 */
module FormatResolution {
  import opened Wrappers
  import opened OpSchema
  import opened FormatBinding

  /** The argument a type is recovered from: an operand, a result or an attribute, by index. */
  datatype ResolverArg = ByOperand(index: nat) | ByResult(index: nat) | ByAttribute(index: nat)

  /** A resolver together with the transformer, if any, applied to its type. */
  datatype TypeResolutionInstance = TypeResolutionInstance(resolver: ResolverArg, transformer: Option<string>)

  /** The resolver map, keyed by the name of the operand or result whose type it resolves. */
  type ResolverMap = map<string, TypeResolutionInstance>

  function Lookup(m: ResolverMap, k: string): (r: Option<TypeResolutionInstance>)
    ensures r.Some? <==> k in m
    ensures r.Some? ==> r.value == m[k]
  {
    if k in m then Some(m[k]) else None
  }

  /** The transformer a `ShapedTypeMatchesElementCountAndTypes` trait applies to the shaped type. */
  const SHAPED_ELEMENTS_TRANSFORMER: string :=
    "::llvm::SmallVector<::mlir::Type>(::llvm::cast<::mlir::ShapedType>($_self).getNumElements(), "
    + "::llvm::cast<::mlir::ShapedType>($_self).getElementType())"

  /** Whether the format binds the argument: the type of an operand or result, or the attribute itself. */
  predicate IsSeen(b: Bindings, a: ResolverArg) {
    match a
    case ByOperand(i) => i in b.seenOperandTypes
    case ByResult(i) => i in b.seenResultTypes
    case ByAttribute(i) => i in b.seenAttrs
  }

  /** Whether the argument exists in the operator and carries the name. */
  predicate Names(op: Operator, a: ResolverArg, name: string) {
    match a
    case ByOperand(i) => i < |op.operands| && op.operands[i].name == name
    case ByResult(i) => i < |op.results| && op.results[i].name == name
    case ByAttribute(i) => i < |op.attributes| && op.attributes[i].name == name
  }

  /**
   * `findSeenArg`: the argument of that name whose type (for an attribute:
   * which) is bound. Operands are searched first, then results, then
   * attributes; once the name is found among one kind, the search stops,
   * bound or not.
   */
  function FindSeenArg(op: Operator, b: Bindings, name: string): (r: Option<ResolverArg>)
    ensures r.Some? ==> IsSeen(b, r.value) && Names(op, r.value, name)
    ensures name in ConstraintNames(op.operands) ==> r.None? || r.value.ByOperand?
    ensures name !in ConstraintNames(op.operands) && name in ConstraintNames(op.results) ==> r.None? || r.value.ByResult?
    ensures name !in ConstraintNames(op.operands) && name !in ConstraintNames(op.results) ==> r.None? || r.value.ByAttribute?
  {
    match FindArg(ConstraintNames(op.operands), name)
    case Some(i) => if i in b.seenOperandTypes then Some(ByOperand(i)) else None
    case None =>
      match FindArg(ConstraintNames(op.results), name)
      case Some(i) => if i in b.seenResultTypes then Some(ByResult(i)) else None
      case None =>
        match FindArg(AttributeNames(op.attributes), name)
        case Some(i) => if i in b.seenAttrs then Some(ByAttribute(i)) else None
        case None => None
  }

  /**
   * A name that denotes an operand whose type is not bound resolves to
   * nothing, even when a result or attribute of the same name is bound.
   */
  lemma FindSeenArgStopsAtFirstKind(op: Operator, b: Bindings, name: string, i: nat)
    requires i < |op.operands| && op.operands[i].name == name
    requires forall j :: 0 <= j < |op.operands| && op.operands[j].name == name ==> j !in b.seenOperandTypes
    ensures FindSeenArg(op, b, name).None?
  {
    assert ConstraintNames(op.operands)[i] == name;
  }

  /** A bound operand or result type is found by its name, provided no earlier argument takes the name. */
  lemma FindSeenArgFindsFirst(op: Operator, b: Bindings, i: nat)
    requires i < |op.operands| && i in b.seenOperandTypes
    requires forall j :: 0 <= j < i ==> op.operands[j].name != op.operands[i].name
    ensures FindSeenArg(op, b, op.operands[i].name) == Some(ByOperand(i))
  {
    var names := ConstraintNames(op.operands);
    assert names[i] == op.operands[i].name;
    var k := FindArg(names, op.operands[i].name).value;
    assert k <= i;
  }

  // ---- The resolver each trait records -----------------------------------------

  /** Whether `k` is listed in `values` at a position other than `i`. */
  predicate OtherListed(values: seq<string>, i: nat, k: string)
    requires i < |values|
  {
    k in values[..i] || k in values[i + 1..]
  }

  /**
   * What the first `n` values of an `AllTypesMatch` trait record for `k`:
   * the resolver of the last bound value among them that lists `k`
   * elsewhere.
   */
  function AllTypesMatchEntry(op: Operator, b: Bindings, values: seq<string>, k: string, n: nat): (r: Option<ResolverArg>)
    requires n <= |values|
    ensures r.Some? <==> exists i :: 0 <= i < n && FindSeenArg(op, b, values[i]).Some? && OtherListed(values, i, k)
    ensures r.Some? ==> exists i :: 0 <= i < n && FindSeenArg(op, b, values[i]) == r && OtherListed(values, i, k) &&
                                   forall j :: i < j < n ==> !(FindSeenArg(op, b, values[j]).Some? && OtherListed(values, j, k))
    ensures r.Some? ==> IsSeen(b, r.value)
    decreases n
  {
    if n == 0 then None
    else
      var arg := FindSeenArg(op, b, values[n - 1]);
      if arg.Some? && OtherListed(values, n - 1, k) then arg
      else AllTypesMatchEntry(op, b, values, k, n - 1)
  }

  /** The first index below `n` in `bits`, as `find_first` of a bit vector of size `n`. */
  function FirstSet(bits: set<nat>, n: nat): (r: Option<nat>)
    ensures r.Some? ==> r.value < n && r.value in bits && forall j :: 0 <= j < r.value ==> j !in bits
    ensures r.None? ==> forall j :: 0 <= j < n ==> j !in bits
    decreases n
  {
    if n == 0 then None
    else match FirstSet(bits, n - 1)
      case Some(i) => Some(i)
      case None => if n - 1 in bits then Some(n - 1) else None
  }

  /**
   * The resolver of `SameTypeOperands` (`includeResults` false) and
   * `SameOperandsAndResultType` (true): the first operand whose type is
   * bound, or else, for the latter, the first result whose type is bound.
   */
  function SameTypesResolver(op: Operator, b: Bindings, includeResults: bool): (r: Option<ResolverArg>)
    ensures r.Some? ==> IsSeen(b, r.value)
    ensures r.Some? && r.value.ByOperand? ==>
              r.value.index < |op.operands| && forall j :: 0 <= j < r.value.index ==> j !in b.seenOperandTypes
    ensures r.Some? && r.value.ByResult? ==>
              && includeResults && r.value.index < |op.results|
              && (forall j :: 0 <= j < |op.operands| ==> j !in b.seenOperandTypes)
              && (forall j :: 0 <= j < r.value.index ==> j !in b.seenResultTypes)
    ensures r.None? <==> (forall j :: 0 <= j < |op.operands| ==> j !in b.seenOperandTypes) &&
                         (includeResults ==> forall j :: 0 <= j < |op.results| ==> j !in b.seenResultTypes)
    ensures r.None? || !r.value.ByAttribute?
  {
    match FirstSet(b.seenOperandTypes, |op.operands|)
    case Some(i) => Some(ByOperand(i))
    case None =>
      if !includeResults then None
      else match FirstSet(b.seenResultTypes, |op.results|)
        case Some(i) => Some(ByResult(i))
        case None => None
  }

  /** Whether one of the first `n` of `cs` is named `k` and its index is not in `bound`. */
  predicate UnboundNamed(cs: seq<NamedTypeConstraint>, bound: set<nat>, k: string, n: nat)
    requires n <= |cs|
  {
    exists i :: 0 <= i < n && i !in bound && cs[i].name == k
  }

  /** How a trait is handled: the branches of the dispatch, tried in this order. */
  datatype TraitHandler =
    | UseAllTypesMatch(values: seq<string>)
    | UseSameTypes(includeResults: bool)
    | UseTypesMatchWith(lhs: string, rhs: string, transformer: string)
    | UseShaped(shaped: string, elements: string)
    | UseInterfaceCheck

  function TraitBranch(t: Trait): (h: TraitHandler)
    ensures t.kind.AllTypesMatchTrait? ==> h == UseAllTypesMatch(t.kind.values)
    ensures h.UseSameTypes? ==>
              !t.kind.AllTypesMatchTrait? && (t.defName == "SameTypeOperands" <==> !h.includeResults)
  {
    if t.kind.AllTypesMatchTrait? then UseAllTypesMatch(t.kind.values)
    else if t.defName == "SameTypeOperands" then UseSameTypes(false)
    else if t.defName == "SameOperandsAndResultType" then UseSameTypes(true)
    else if t.kind.TypesMatchWithTrait? then UseTypesMatchWith(t.kind.lhs, t.kind.rhs, t.kind.transformer)
    else if t.kind.ShapedTypeMatchesElementCountAndTypesTrait? then UseShaped(t.kind.shaped, t.kind.elements)
    else UseInterfaceCheck
  }

  /** The resolver a trait records for the name `k`, if it records one. */
  function TraitEntry(op: Operator, b: Bindings, t: Trait, k: string): (r: Option<TypeResolutionInstance>)
    ensures r.Some? ==> IsSeen(b, r.value.resolver)
  {
    match TraitBranch(t)
    case UseAllTypesMatch(values) =>
      (match AllTypesMatchEntry(op, b, values, k, |values|)
       case Some(a) => Some(TypeResolutionInstance(a, None))
       case None => None)
    case UseSameTypes(includeResults) =>
      (match SameTypesResolver(op, b, includeResults)
       case Some(a) =>
         if UnboundNamed(op.operands, b.seenOperandTypes, k, |op.operands|) ||
            (includeResults && UnboundNamed(op.results, b.seenResultTypes, k, |op.results|))
         then Some(TypeResolutionInstance(a, None))
         else None
       case None => None)
    case UseTypesMatchWith(lhs, rhs, transformer) =>
      (match FindSeenArg(op, b, lhs)
       case Some(a) => if k == rhs then Some(TypeResolutionInstance(a, Some(transformer))) else None
       case None => None)
    case UseShaped(shaped, elements) =>
      (match FindSeenArg(op, b, shaped)
       case Some(a) => if k == elements then Some(TypeResolutionInstance(a, Some(SHAPED_ELEMENTS_TRANSFORMER))) else None
       case None => None)
    case UseInterfaceCheck => None
  }

  /** The map after all `traits`: for each name, the entry of the last trait that records one. */
  function ResolverFor(op: Operator, b: Bindings, traits: seq<Trait>, k: string): (r: Option<TypeResolutionInstance>)
    ensures r.Some? ==> IsSeen(b, r.value.resolver)
    ensures r.Some? <==> exists t :: t in traits && TraitEntry(op, b, t, k).Some?
    decreases |traits|
  {
    if |traits| == 0 then None
    else
      var last := traits[|traits| - 1];
      assert traits == traits[..|traits| - 1] + [last];
      match TraitEntry(op, b, last, k)
      case Some(x) => Some(x)
      case None => ResolverFor(op, b, traits[..|traits| - 1], k)
  }

  /** `canInferResultTypes`: a trait that reaches the interface check is `::mlir::InferTypeOpInterface`. */
  predicate DeclaresInferType(op: Operator) {
    InfersAmong(op, op.traits)
  }

  /** One of `traits` reaches the interface check as `::mlir::InferTypeOpInterface`, and some result type is unknown. */
  predicate InfersAmong(op: Operator, traits: seq<Trait>) {
    !op.allResultTypesKnown && exists t :: t in traits && IsInferTypeCheck(t)
  }

  /** The trait reaches the interface check and is `::mlir::InferTypeOpInterface`. */
  predicate IsInferTypeCheck(t: Trait) {
    TraitBranch(t) == UseInterfaceCheck && t.kind == InterfaceTrait("InferTypeOpInterface", "::mlir")
  }

  // ---- Properties of the trait handlers ---------------------------------------

  /** `AllTypesMatch` maps every value listed beside a bound one to a bound argument, and nothing else. */
  lemma AllTypesMatchResolvesOthers(op: Operator, b: Bindings, t: Trait, i: nat, j: nat)
    requires t.kind.AllTypesMatchTrait? && i < |t.kind.values| && j < |t.kind.values| && i != j
    requires FindSeenArg(op, b, t.kind.values[i]).Some?
    ensures TraitEntry(op, b, t, t.kind.values[j]).Some?
    ensures TraitEntry(op, b, t, t.kind.values[j]).value.transformer.None?
  {
    var values := t.kind.values;
    if j < i {
      assert values[..i][j] == values[j];
    } else {
      assert values[i + 1..][j - i - 1] == values[j];
    }
    assert OtherListed(values, i, values[j]);
  }

  lemma AllTypesMatchOnlyListed(op: Operator, b: Bindings, t: Trait, k: string)
    requires t.kind.AllTypesMatchTrait? && k !in t.kind.values
    ensures TraitEntry(op, b, t, k).None?
  {
  }

  /** `TypesMatchWith` records `rhs` alone, exactly when `lhs` is bound, with the trait's transformer. */
  lemma TypesMatchWithEntry(op: Operator, b: Bindings, t: Trait, k: string)
    requires TraitBranch(t).UseTypesMatchWith?
    ensures var h := TraitBranch(t);
            TraitEntry(op, b, t, k) ==
              if k == h.rhs && FindSeenArg(op, b, h.lhs).Some?
              then Some(TypeResolutionInstance(FindSeenArg(op, b, h.lhs).value, Some(h.transformer)))
              else None
  {
  }

  /**
   * `ShapedTypeMatchesElementCountAndTypes` recovers the elements from a
   * bound shaped type, and never the shaped type from the elements.
   */
  lemma ShapedIsOneWay(op: Operator, b: Bindings, t: Trait)
    requires TraitBranch(t).UseShaped?
    ensures var h := TraitBranch(t);
            (FindSeenArg(op, b, h.shaped).Some? <==> TraitEntry(op, b, t, h.elements).Some?) &&
            (h.shaped != h.elements ==> TraitEntry(op, b, t, h.shaped).None?) &&
            forall k :: k != h.elements ==> TraitEntry(op, b, t, k).None?
  {
  }

  /**
   * `SameTypeOperands` resolves every operand whose type is not bound to the
   * first bound operand; `SameOperandsAndResultType` also every such result,
   * and resolves from the first bound result when no operand is bound.
   */
  lemma SameTypesResolvesUnbound(op: Operator, b: Bindings, t: Trait, i: nat)
    requires TraitBranch(t).UseSameTypes? && i < |op.operands| && i !in b.seenOperandTypes
    requires SameTypesResolver(op, b, TraitBranch(t).includeResults).Some?
    ensures TraitEntry(op, b, t, op.operands[i].name) ==
            Some(TypeResolutionInstance(SameTypesResolver(op, b, TraitBranch(t).includeResults).value, None))
  {
    assert UnboundNamed(op.operands, b.seenOperandTypes, op.operands[i].name, |op.operands|);
  }

  lemma SameTypesResolvesResults(op: Operator, b: Bindings, t: Trait, i: nat)
    requires TraitBranch(t) == UseSameTypes(true) && i < |op.results| && i !in b.seenResultTypes
    requires SameTypesResolver(op, b, true).Some?
    ensures TraitEntry(op, b, t, op.results[i].name) == Some(TypeResolutionInstance(SameTypesResolver(op, b, true).value, None))
  {
    assert UnboundNamed(op.results, b.seenResultTypes, op.results[i].name, |op.results|);
  }

  /** A trait later in the list overrides the entry of an earlier one for the same name. */
  lemma LaterTraitWins(op: Operator, b: Bindings, traits: seq<Trait>, i: nat, k: string)
    requires i < |traits| && TraitEntry(op, b, traits[i], k).Some?
    requires forall j :: i < j < |traits| ==> TraitEntry(op, b, traits[j], k).None?
    ensures ResolverFor(op, b, traits, k) == TraitEntry(op, b, traits[i], k)
    decreases |traits|
  {
    if i < |traits| - 1 {
      var init := traits[..|traits| - 1];
      assert init[i] == traits[i];
      forall j | i < j < |init|
        ensures TraitEntry(op, b, init[j], k).None?
      {
        assert init[j] == traits[j];
      }
      LaterTraitWins(op, b, init, i, k);
    }
  }

  // ---- The handlers ------------------------------------------------------------

  /** Sets the entry of every name in `keys` to `inst`. */
  method AssignAll(m: ResolverMap, keys: seq<string>, inst: TypeResolutionInstance) returns (m': ResolverMap)
    ensures forall k :: Lookup(m', k) == if k in keys then Some(inst) else Lookup(m, k)
  {
    m' := m;
    var j := 0;
    while j < |keys|
      invariant 0 <= j <= |keys|
      invariant forall k :: Lookup(m', k) == if k in keys[..j] then Some(inst) else Lookup(m, k)
    {
      assert keys[..j + 1] == keys[..j] + [keys[j]];
      m' := m'[keys[j] := inst];
      j := j + 1;
    }
    assert keys[..j] == keys;
  }

  /** `handleAllTypesMatchConstraint`. */
  method HandleAllTypesMatch(op: Operator, b: Bindings, values: seq<string>, m: ResolverMap) returns (m': ResolverMap)
    ensures forall k :: Lookup(m', k) ==
              match AllTypesMatchEntry(op, b, values, k, |values|)
              case Some(a) => Some(TypeResolutionInstance(a, None))
              case None => Lookup(m, k)
  {
    m' := m;
    var i := 0;
    while i < |values|
      invariant 0 <= i <= |values|
      invariant forall k :: Lookup(m', k) ==
                  match AllTypesMatchEntry(op, b, values, k, i)
                  case Some(a) => Some(TypeResolutionInstance(a, None))
                  case None => Lookup(m, k)
    {
      var arg := FindSeenArg(op, b, values[i]);
      if arg.Some? {
        var inst := TypeResolutionInstance(arg.value, None);
        m' := AssignAll(m', values[..i], inst);
        m' := AssignAll(m', values[i + 1..], inst);
      }
      i := i + 1;
    }
  }

  /** Sets the entry of the name of every `cs[i]` with `i` not in `bound` to `inst`. */
  method AssignUnbound(m: ResolverMap, cs: seq<NamedTypeConstraint>, bound: set<nat>, inst: TypeResolutionInstance)
    returns (m': ResolverMap)
    ensures forall k :: Lookup(m', k) == if UnboundNamed(cs, bound, k, |cs|) then Some(inst) else Lookup(m, k)
  {
    m' := m;
    var i := 0;
    while i < |cs|
      invariant 0 <= i <= |cs|
      invariant forall k :: Lookup(m', k) == if UnboundNamed(cs, bound, k, i) then Some(inst) else Lookup(m, k)
    {
      var m0 := m';
      if i !in bound {
        m' := m'[cs[i].name := inst];
      }
      forall k
        ensures Lookup(m', k) == if UnboundNamed(cs, bound, k, i + 1) then Some(inst) else Lookup(m, k)
      {
        if i !in bound && cs[i].name == k {
          assert UnboundNamed(cs, bound, k, i + 1);
        } else {
          assert Lookup(m', k) == Lookup(m0, k);
          if UnboundNamed(cs, bound, k, i + 1) {
            var j :| 0 <= j < i + 1 && j !in bound && cs[j].name == k;
            assert UnboundNamed(cs, bound, k, i);
          }
        }
      }
      i := i + 1;
    }
  }

  /** `handleSameTypesConstraint`. */
  method HandleSameTypes(op: Operator, b: Bindings, m: ResolverMap, includeResults: bool) returns (m': ResolverMap)
    ensures forall k :: Lookup(m', k) ==
              match TraitEntry(op, b, Trait(if includeResults then "SameOperandsAndResultType" else "SameTypeOperands", OtherTrait), k)
              case Some(x) => Some(x)
              case None => Lookup(m, k)
  {
    var resolver := SameTypesResolver(op, b, includeResults);
    if resolver.None? {
      return m;
    }
    var inst := TypeResolutionInstance(resolver.value, None);
    m' := AssignUnbound(m, op.operands, b.seenOperandTypes, inst);
    if includeResults {
      m' := AssignUnbound(m', op.results, b.seenResultTypes, inst);
    }
  }

  /** `handleTypesMatchConstraint`. */
  method HandleTypesMatch(op: Operator, b: Bindings, m: ResolverMap, lhs: string, rhs: string, transformer: string)
    returns (m': ResolverMap)
    ensures forall k :: Lookup(m', k) ==
              if k == rhs && FindSeenArg(op, b, lhs).Some?
              then Some(TypeResolutionInstance(FindSeenArg(op, b, lhs).value, Some(transformer)))
              else Lookup(m, k)
  {
    m' := m;
    var arg := FindSeenArg(op, b, lhs);
    if arg.Some? {
      m' := m'[rhs := TypeResolutionInstance(arg.value, Some(transformer))];
    }
  }

  /** `handleShapedTypeMatchesElementCountAndTypesConstraint`. */
  method HandleShaped(op: Operator, b: Bindings, m: ResolverMap, shaped: string, elements: string)
    returns (m': ResolverMap)
    ensures forall k :: Lookup(m', k) ==
              if k == elements && FindSeenArg(op, b, shaped).Some?
              then Some(TypeResolutionInstance(FindSeenArg(op, b, shaped).value, Some(SHAPED_ELEMENTS_TRANSFORMER)))
              else Lookup(m, k)
  {
    m' := m;
    var arg := FindSeenArg(op, b, shaped);
    if arg.Some? {
      m' := m'[elements := TypeResolutionInstance(arg.value, Some(SHAPED_ELEMENTS_TRANSFORMER))];
    }
  }

  /** `m` holds, for every name, the resolver the traits give it. */
  ghost predicate IsResolverMap(op: Operator, b: Bindings, m: ResolverMap) {
    forall k :: Lookup(m, k) == ResolverFor(op, b, op.traits, k)
  }

  /**
   * The trait loop of `verify`: builds the resolver map from the
   * operation's traits in order, and reports whether result types can be
   * inferred.
   */
  method BuildResolvers(op: Operator, b: Bindings) returns (m: ResolverMap, canInfer: bool)
    ensures IsResolverMap(op, b, m)
    ensures canInfer == DeclaresInferType(op)
  {
    m := map[];
    canInfer := false;
    var i := 0;
    while i < |op.traits|
      invariant 0 <= i <= |op.traits|
      invariant forall k :: Lookup(m, k) == ResolverFor(op, b, op.traits[..i], k)
      invariant canInfer == InfersAmong(op, op.traits[..i])
    {
      var m0 := m;
      var infers;
      m, infers := HandleTrait(op, b, op.traits[i], m);
      ResolverLoopStep(op, b, op.traits, i, m0, m);
      InfersLoopStep(op, op.traits, i);
      canInfer := canInfer || infers;
      i := i + 1;
    }
    assert op.traits[..i] == op.traits;
  }

  /** One iteration of the trait loop: the handler the trait selects, and whether it is the type-inference interface. */
  method HandleTrait(op: Operator, b: Bindings, t: Trait, m: ResolverMap) returns (m': ResolverMap, infers: bool)
    ensures forall k :: Lookup(m', k) ==
              match TraitEntry(op, b, t, k)
              case Some(x) => Some(x)
              case None => Lookup(m, k)
    ensures infers == (!op.allResultTypesKnown && IsInferTypeCheck(t))
  {
    m' := m;
    infers := false;
    match TraitBranch(t) {
      case UseAllTypesMatch(values) =>
        m' := HandleAllTypesMatch(op, b, values, m);
      case UseSameTypes(includeResults) =>
        m' := HandleSameTypes(op, b, m, includeResults);
        forall k ensures TraitEntry(op, b, t, k) ==
                TraitEntry(op, b, Trait(if includeResults then "SameOperandsAndResultType" else "SameTypeOperands", OtherTrait), k)
        {
        }
      case UseTypesMatchWith(lhs, rhs, transformer) =>
        m' := HandleTypesMatch(op, b, m, lhs, rhs, transformer);
      case UseShaped(shaped, elements) =>
        m' := HandleShaped(op, b, m, shaped, elements);
      case UseInterfaceCheck =>
        if !op.allResultTypesKnown && t.kind.InterfaceTrait? {
          if t.kind.cppInterfaceName == "InferTypeOpInterface" && t.kind.cppNamespace == "::mlir" {
            infers := true;
          }
        }
    }
  }

  /** A trait's entries override those of the traits before it. */
  lemma ResolverLoopStep(op: Operator, b: Bindings, traits: seq<Trait>, i: nat, m0: ResolverMap, m: ResolverMap)
    requires i < |traits|
    requires forall k :: Lookup(m0, k) == ResolverFor(op, b, traits[..i], k)
    requires forall k :: Lookup(m, k) ==
               match TraitEntry(op, b, traits[i], k)
               case Some(x) => Some(x)
               case None => Lookup(m0, k)
    ensures forall k :: Lookup(m, k) == ResolverFor(op, b, traits[..i + 1], k)
  {
    assert traits[..i + 1][..i] == traits[..i];
  }

  /** The type-inference flag after one more trait. */
  lemma InfersLoopStep(op: Operator, traits: seq<Trait>, i: nat)
    requires i < |traits|
    ensures InfersAmong(op, traits[..i + 1]) == (InfersAmong(op, traits[..i]) || (!op.allResultTypesKnown && IsInferTypeCheck(traits[i])))
  {
    assert traits[..i + 1] == traits[..i] + [traits[i]];
  }
}
