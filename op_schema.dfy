/**
 * The part of an operation's ODS definition that the declarative assembly
 * format generator consults: named operands, results, attributes,
 * properties, regions and successors, and the operation's traits.
 *
 * The TableGen records behind these are foreign queries; each is reduced
 * here to the flags and opaque strings the format generator reads.
 */
module OpSchema {
  import opened Wrappers

  /** A named operand or result together with its length constraint. */
  datatype NamedTypeConstraint = NamedTypeConstraint(
    name: string,
    isOptional: bool,
    isVariadic: bool,            // also true for a variadic of variadic
    isVariadicOfVariadic: bool,
    builderCall: Option<string>, // constant builder of the constraint's type
    segmentSizeAttr: string)     // group-size attribute of a variadic of variadic

  predicate IsVariableLength(c: NamedTypeConstraint) {
    c.isOptional || c.isVariadic
  }

  datatype ArgumentLengthKind = Single | Optional | Variadic | VariadicOfVariadic

  /** The length kind of an operand or result; the tests are made in this order. */
  function GetArgumentLengthKind(c: NamedTypeConstraint): (k: ArgumentLengthKind)
    ensures k == Optional <==> c.isOptional
    ensures k == VariadicOfVariadic <==> !c.isOptional && c.isVariadicOfVariadic
    ensures k == Variadic <==> !c.isOptional && !c.isVariadicOfVariadic && c.isVariadic
    ensures k == Single <==> !c.isOptional && !c.isVariadicOfVariadic && !c.isVariadic
  {
    if c.isOptional then Optional
    else if c.isVariadicOfVariadic then VariadicOfVariadic
    else if c.isVariadic then Variadic
    else Single
  }

  /** When a variadic of variadic is marked variadic, as ODS does, Single means fixed length. */
  lemma SingleIffFixedLength(c: NamedTypeConstraint)
    requires c.isVariadicOfVariadic ==> c.isVariadic
    ensures GetArgumentLengthKind(c) == Single <==> !IsVariableLength(c)
  {
  }

  datatype NamedAttribute = NamedAttribute(
    name: string,
    isOptional: bool,
    hasDefaultValue: bool,
    typeBuilder: Option<string>, // builder call of the attribute's value type
    storageType: string,
    baseAttrDefName: string)

  datatype NamedProperty = NamedProperty(
    name: string,
    hasDefaultValue: bool,
    hasOptionalParser: bool,
    basePropertyDefName: string)

  datatype NamedRegion = NamedRegion(name: string, isVariadic: bool)

  datatype NamedSuccessor = NamedSuccessor(name: string, isVariadic: bool)

  /** What a trait record is, as far as the format generator distinguishes it. */
  datatype TraitKind =
    | AllTypesMatchTrait(values: seq<string>)
    | TypesMatchWithTrait(lhs: string, rhs: string, transformer: string)
    | ShapedTypeMatchesElementCountAndTypesTrait(shaped: string, elements: string)
    | InterfaceTrait(cppInterfaceName: string, cppNamespace: string)
    | NativeTrait(fullyQualifiedName: string)
    | OtherTrait

  datatype Trait = Trait(defName: string, kind: TraitKind)

  datatype Operator = Operator(
    operands: seq<NamedTypeConstraint>,
    results: seq<NamedTypeConstraint>,
    attributes: seq<NamedAttribute>,
    properties: seq<NamedProperty>,
    regions: seq<NamedRegion>,
    successors: seq<NamedSuccessor>,
    traits: seq<Trait>,
    allResultTypesKnown: bool)

  /** The fully qualified names of the native traits of an operation, as found by `Operator::getTrait`. */
  predicate HasNativeTrait(op: Operator, name: string) {
    exists t :: t in op.traits && t.kind == NativeTrait(name)
  }

  /** The index of the first entry of `names` equal to `name`. */
  function FindArg(names: seq<string>, name: string): (r: Option<nat>)
    ensures r.Some? ==> r.value < |names| && names[r.value] == name
                        && forall j :: 0 <= j < r.value ==> names[j] != name
    ensures r.None? <==> name !in names
  {
    if |names| == 0 then None
    else if names[0] == name then Some(0)
    else match FindArg(names[1..], name)
      case None => None
      case Some(i) => Some(i + 1)
  }

  function ConstraintNames(cs: seq<NamedTypeConstraint>): (r: seq<string>)
    ensures |r| == |cs| && forall i :: 0 <= i < |cs| ==> r[i] == cs[i].name
  {
    seq(|cs|, i requires 0 <= i < |cs| => cs[i].name)
  }

  function AttributeNames(attrs: seq<NamedAttribute>): (r: seq<string>)
    ensures |r| == |attrs| && forall i :: 0 <= i < |attrs| ==> r[i] == attrs[i].name
  {
    seq(|attrs|, i requires 0 <= i < |attrs| => attrs[i].name)
  }

  function PropertyNames(ps: seq<NamedProperty>): (r: seq<string>)
    ensures |r| == |ps| && forall i :: 0 <= i < |ps| ==> r[i] == ps[i].name
  {
    seq(|ps|, i requires 0 <= i < |ps| => ps[i].name)
  }

  function RegionNames(rs: seq<NamedRegion>): (r: seq<string>)
    ensures |r| == |rs| && forall i :: 0 <= i < |rs| ==> r[i] == rs[i].name
  {
    seq(|rs|, i requires 0 <= i < |rs| => rs[i].name)
  }

  function SuccessorNames(ss: seq<NamedSuccessor>): (r: seq<string>)
    ensures |r| == |ss| && forall i :: 0 <= i < |ss| ==> r[i] == ss[i].name
  {
    seq(|ss|, i requires 0 <= i < |ss| => ss[i].name)
  }
}
