/**
 * The two ambiguity scans run while verifying a format: an attribute that
 * is parsed by the generic attribute parser must not be followed by a `:`
 * literal, and a plain `attr-dict` must not be followed by a region. Both
 * are instances of one scan, parameterised by what starts a check (the
 * base) and what makes the format ambiguous after it (the invalid element).
 */
module FormatAmbiguity {
  import opened Wrappers
  import opened FormatElements

  datatype AmbiguityCheck = AttributeColonType | AttrDictRegion

  /** The elements after which the scan looks for an ambiguity. */
  predicate IsBase(check: AmbiguityCheck, e: Element) {
    match check
    case AttributeColonType =>
      // Only attributes without a type builder that go through the generic parser.
      e.AttributeVar? && e.attr.typeBuilder.None? &&
      (e.qualified || e.attr.storageType == "::mlir::Attribute")
    case AttrDictRegion => e.AttrDictDir? && !e.withKeyword
  }

  /** The elements that make the format ambiguous when they may follow a base. */
  predicate IsInvalid(check: AmbiguityCheck, e: Element) {
    match check
    case AttributeColonType => e.Literal? && e.spelling == ":"
    case AttrDictRegion => e.RegionVar?
  }

  /** `checkRangeForElement`'s three outcomes: failure, success, and `std::nullopt`. */
  datatype ScanResult = ScanFailed(culprit: Element) | ScanSucceeded | ScanReachedEnd

  /**
   * `checkRangeForElement`: scans `range` from its start. When `guardFirst`
   * holds, the first element is the guard of an optional group, which is
   * required even when it could otherwise be omitted.
   */
  function CheckRangeForElement(check: AmbiguityCheck, range: seq<Element>, guardFirst: bool): (r: ScanResult)
    ensures r.ScanFailed? ==> IsInvalid(check, r.culprit)
    decreases range
  {
    if |range| == 0 then ScanReachedEnd
    else
      var e := range[0];
      if IsInvalid(check, e) then ScanFailed(e)
      else if e.OptionalGroup? then
        var t := CheckRangeForElement(check, e.thenElements, true);
        if t.ScanFailed? then t
        else
          var f := CheckRangeForElement(check, e.elseElements, false);
          if f.ScanFailed? then f
          else CheckRangeForElement(check, range[1..], false)
      else if !guardFirst && IsOptionallyParsed(e) then CheckRangeForElement(check, range[1..], false)
      else ScanSucceeded
  }

  /** The element at `j` fails the scan: it is invalid, or it is an optional group one of whose branches fails. */
  predicate FailsAt(check: AmbiguityCheck, range: seq<Element>, j: int)
    requires 0 <= j < |range|
  {
    IsInvalid(check, range[j]) ||
    (range[j].OptionalGroup? &&
     (CheckRangeForElement(check, range[j].thenElements, true).ScanFailed? ||
      CheckRangeForElement(check, range[j].elseElements, false).ScanFailed?))
  }

  /** The element at `j` must be present, so the scan stops there. */
  predicate RequiredAt(range: seq<Element>, j: int, guardFirst: bool)
    requires 0 <= j < |range|
  {
    !range[j].OptionalGroup? && ((j == 0 && guardFirst) || !IsOptionallyParsed(range[j]))
  }

  predicate NoneRequiredBefore(range: seq<Element>, j: int, guardFirst: bool)
    requires 0 <= j <= |range|
  {
    forall k :: 0 <= k < j ==> !RequiredAt(range, k, guardFirst)
  }

  lemma ShiftFailsAt(check: AmbiguityCheck, range: seq<Element>, j: int)
    requires 1 <= j < |range|
    ensures FailsAt(check, range, j) == FailsAt(check, range[1..], j - 1)
    ensures RequiredAt(range, j, true) == RequiredAt(range, j, false) == RequiredAt(range[1..], j - 1, false)
  {
  }

  /**
   * The scan fails iff some element fails no later than the first required
   * element; it reaches the end iff every element is skippable and none
   * fails; and it succeeds otherwise.
   */
  lemma {:induction false} CheckRangeCharacterised(check: AmbiguityCheck, range: seq<Element>, guardFirst: bool)
    ensures CheckRangeForElement(check, range, guardFirst).ScanFailed? <==>
            exists j :: 0 <= j < |range| && FailsAt(check, range, j) && NoneRequiredBefore(range, j, guardFirst)
    ensures CheckRangeForElement(check, range, guardFirst).ScanReachedEnd? <==>
            forall j :: 0 <= j < |range| ==> !FailsAt(check, range, j) && !RequiredAt(range, j, guardFirst)
    decreases range
  {
    if |range| > 0 {
      var r := CheckRangeForElement(check, range, guardFirst);
      var tail := range[1..];
      if FailsAt(check, range, 0) {
        assert r.ScanFailed?;
      } else if RequiredAt(range, 0, guardFirst) {
        assert r.ScanSucceeded?;
        forall j | 0 < j < |range|
          ensures !NoneRequiredBefore(range, j, guardFirst)
        {
          assert RequiredAt(range, 0, guardFirst);
        }
      } else {
        assert r == CheckRangeForElement(check, tail, false);
        CheckRangeCharacterised(check, tail, false);
        forall j | 1 <= j < |range|
          ensures FailsAt(check, range, j) == FailsAt(check, tail, j - 1)
          ensures RequiredAt(range, j, guardFirst) == RequiredAt(tail, j - 1, false)
        {
          ShiftFailsAt(check, range, j);
        }
        if r.ScanFailed? {
          var j' :| 0 <= j' < |tail| && FailsAt(check, tail, j') && NoneRequiredBefore(tail, j', false);
          assert FailsAt(check, range, j' + 1);
          assert NoneRequiredBefore(range, j' + 1, guardFirst) by {
            forall k | 0 <= k < j' + 1 ensures !RequiredAt(range, k, guardFirst) {
              if k > 0 { assert !RequiredAt(tail, k - 1, false); }
            }
          }
        } else {
          forall j | 0 <= j < |range| && FailsAt(check, range, j)
            ensures !NoneRequiredBefore(range, j, guardFirst)
          {
            assert j > 0 && FailsAt(check, tail, j - 1);
            assert !NoneRequiredBefore(tail, j - 1, false);
            var k :| 0 <= k < j - 1 && RequiredAt(tail, k, false);
            assert RequiredAt(range, k + 1, guardFirst);
          }
        }
        if r.ScanReachedEnd? {
          forall j | 0 <= j < |range|
            ensures !FailsAt(check, range, j) && !RequiredAt(range, j, guardFirst)
          {
            if j > 0 {
              assert !FailsAt(check, tail, j - 1) && !RequiredAt(tail, j - 1, false);
            }
          }
        } else {
          assert exists j :: 0 <= j < |tail| && (FailsAt(check, tail, j) || RequiredAt(tail, j, false));
          var j :| 0 <= j < |tail| && (FailsAt(check, tail, j) || RequiredAt(tail, j, false));
          assert FailsAt(check, range, j + 1) || RequiredAt(range, j + 1, guardFirst);
        }
      }
    }
  }

  /** `verifyAdjacentElements`' outcomes: failure, a still-unverified base, or null. */
  datatype AdjacentResult = AdjacentFailed(base: Element, culprit: Element) | Unverified(base: Element) | AllVerified

  /**
   * `verifyAdjacentElements` as written: when the scan after a base
   * reaches the end of the range, it returns that base at once, and the
   * elements after it are never taken as bases themselves.
   */
  function VerifyAdjacentAsWritten(check: AmbiguityCheck, es: seq<Element>): (r: AdjacentResult)
    ensures r.AdjacentFailed? ==> IsBase(check, r.base) && IsInvalid(check, r.culprit)
    ensures r.Unverified? ==> IsBase(check, r.base)
    decreases es, 0
  {
    if |es| == 0 then AllVerified
    else
      var e := es[0];
      if IsBase(check, e) then AsWrittenAfterBase(check, e, es[1..])
      else if e.OptionalGroup? then
        var t := VerifyAdjacentAsWritten(check, e.thenElements);
        if t.AdjacentFailed? then t
        else
          var f := VerifyAdjacentAsWritten(check, e.elseElements);
          if f.AdjacentFailed? then f
          else if t.Unverified? then AsWrittenAfterBase(check, t.base, es[1..])
          else if f.Unverified? then AsWrittenAfterBase(check, f.base, es[1..])
          else VerifyAdjacentAsWritten(check, es[1..])
      else VerifyAdjacentAsWritten(check, es[1..])
  }

  function AsWrittenAfterBase(check: AmbiguityCheck, base: Element, rest: seq<Element>): (r: AdjacentResult)
    requires IsBase(check, base)
    ensures r.AdjacentFailed? ==> IsBase(check, r.base) && IsInvalid(check, r.culprit)
    ensures r.Unverified? ==> IsBase(check, r.base)
    decreases rest, 1
  {
    match CheckRangeForElement(check, rest, false)
    case ScanFailed(c) => AdjacentFailed(base, c)
    case ScanReachedEnd => Unverified(base)
    case ScanSucceeded => VerifyAdjacentAsWritten(check, rest)
  }

  /**
   * `verifyAdjacentElements` as evidently intended: a base whose scan
   * reaches the end is remembered as unverified and the loop goes on with
   * the next element, so every base of the range is checked.
   */
  function VerifyAdjacentElements(check: AmbiguityCheck, es: seq<Element>): (r: AdjacentResult)
    ensures r.AdjacentFailed? ==> IsBase(check, r.base) && IsInvalid(check, r.culprit)
    ensures r.Unverified? ==> IsBase(check, r.base)
    decreases es, 0
  {
    if |es| == 0 then AllVerified
    else
      var e := es[0];
      if IsBase(check, e) then AfterBase(check, e, es[1..])
      else if e.OptionalGroup? then
        var t := VerifyAdjacentElements(check, e.thenElements);
        if t.AdjacentFailed? then t
        else
          var f := VerifyAdjacentElements(check, e.elseElements);
          if f.AdjacentFailed? then f
          else if t.Unverified? then AfterBase(check, t.base, es[1..])
          else if f.Unverified? then AfterBase(check, f.base, es[1..])
          else VerifyAdjacentElements(check, es[1..])
      else VerifyAdjacentElements(check, es[1..])
  }

  function AfterBase(check: AmbiguityCheck, base: Element, rest: seq<Element>): (r: AdjacentResult)
    requires IsBase(check, base)
    ensures r.AdjacentFailed? ==> IsBase(check, r.base) && IsInvalid(check, r.culprit)
    ensures r.Unverified? ==> IsBase(check, r.base)
    decreases rest, 1
  {
    match CheckRangeForElement(check, rest, false)
    case ScanFailed(c) => AdjacentFailed(base, c)
    case ScanReachedEnd =>
      var later := VerifyAdjacentElements(check, rest);
      if later.AdjacentFailed? then later else Unverified(base)
    case ScanSucceeded => VerifyAdjacentElements(check, rest)
  }

  /** Where the corrected scan accepts a range it agrees with the one as written, so it rejects all the latter rejects. */
  lemma {:induction false} CorrectedRefinesAsWritten(check: AmbiguityCheck, es: seq<Element>)
    ensures !VerifyAdjacentElements(check, es).AdjacentFailed? ==>
            VerifyAdjacentElements(check, es) == VerifyAdjacentAsWritten(check, es)
    ensures VerifyAdjacentAsWritten(check, es).AdjacentFailed? ==> VerifyAdjacentElements(check, es).AdjacentFailed?
    decreases es, 0
  {
    if |es| > 0 {
      var e := es[0];
      if IsBase(check, e) {
        AfterBaseRefines(check, e, es[1..]);
      } else if e.OptionalGroup? {
        CorrectedRefinesAsWritten(check, e.thenElements);
        CorrectedRefinesAsWritten(check, e.elseElements);
        var t := VerifyAdjacentElements(check, e.thenElements);
        var f := VerifyAdjacentElements(check, e.elseElements);
        if !t.AdjacentFailed? && !f.AdjacentFailed? {
          if t.Unverified? {
            AfterBaseRefines(check, t.base, es[1..]);
          } else if f.Unverified? {
            AfterBaseRefines(check, f.base, es[1..]);
          } else {
            CorrectedRefinesAsWritten(check, es[1..]);
          }
        }
      } else {
        CorrectedRefinesAsWritten(check, es[1..]);
      }
    }
  }

  lemma {:induction false} AfterBaseRefines(check: AmbiguityCheck, base: Element, rest: seq<Element>)
    requires IsBase(check, base)
    ensures !AfterBase(check, base, rest).AdjacentFailed? ==>
            AfterBase(check, base, rest) == AsWrittenAfterBase(check, base, rest)
    decreases rest, 1
  {
    if CheckRangeForElement(check, rest, false).ScanSucceeded? {
      CorrectedRefinesAsWritten(check, rest);
    }
  }

  /** With the corrected scan, an ambiguity in a suffix is never hidden by what precedes it. */
  lemma {:induction false} FailureSurvivesPrefix(check: AmbiguityCheck, es: seq<Element>)
    requires |es| > 0 && VerifyAdjacentElements(check, es[1..]).AdjacentFailed?
    ensures VerifyAdjacentElements(check, es).AdjacentFailed?
  {
    var e := es[0];
    if IsBase(check, e) {
      AfterBaseKeepsFailure(check, e, es[1..]);
    } else if e.OptionalGroup? {
      var t := VerifyAdjacentElements(check, e.thenElements);
      var f := VerifyAdjacentElements(check, e.elseElements);
      if !t.AdjacentFailed? && !f.AdjacentFailed? {
        if t.Unverified? {
          AfterBaseKeepsFailure(check, t.base, es[1..]);
        } else if f.Unverified? {
          AfterBaseKeepsFailure(check, f.base, es[1..]);
        }
      }
    }
  }

  lemma AfterBaseKeepsFailure(check: AmbiguityCheck, base: Element, rest: seq<Element>)
    requires IsBase(check, base) && VerifyAdjacentElements(check, rest).AdjacentFailed?
    ensures AfterBase(check, base, rest).AdjacentFailed?
  {
  }

  /** With the corrected scan, every base whose following elements may start with an invalid one fails the format. */
  lemma {:induction false} EveryBaseChecked(check: AmbiguityCheck, es: seq<Element>, i: nat)
    requires i < |es| && IsBase(check, es[i])
    requires CheckRangeForElement(check, es[i + 1..], false).ScanFailed?
    ensures VerifyAdjacentElements(check, es).AdjacentFailed?
    decreases i
  {
    if i == 0 {
      assert es[1..] == es[i + 1..];
    } else {
      assert es[1..][i - 1 + 1..] == es[i + 1..];
      EveryBaseChecked(check, es[1..], i - 1);
      FailureSurvivesPrefix(check, es);
    }
  }

  // A witness of the difference: the format `$a ($b^ `:` `x`)? attr-dict`,
  // where $a and $b are optional attributes parsed by the generic parser.
  function GenericAttribute(index: nat, name: string): Element {
    AttributeVar(index, OpSchema.NamedAttribute(name, true, false, None, "::mlir::Attribute", "AnyAttr"), false)
  }

  function AmbiguousExample(): seq<Element> {
    [GenericAttribute(0, "a"),
     OptionalGroup([GenericAttribute(1, "b"), Literal(":"), Literal("x")], [], 0, false),
     AttrDictDir(false)]
  }

  /**
   * In the example, `$b` inside the group is followed by `:`. The scan as
   * written stops at `$a`, whose scan reaches the end, and accepts the
   * format; dropping `$a` makes it reject the same group. The corrected
   * scan rejects both.
   */
  lemma AsWrittenMissesAmbiguity()
    ensures VerifyAdjacentAsWritten(AttributeColonType, AmbiguousExample()) ==
            Unverified(GenericAttribute(0, "a"))
    ensures VerifyAdjacentAsWritten(AttributeColonType, AmbiguousExample()[1..]).AdjacentFailed?
    ensures VerifyAdjacentElements(AttributeColonType, AmbiguousExample()) ==
            AdjacentFailed(GenericAttribute(1, "b"), Literal(":"))
  {
    var ex := AmbiguousExample();
    var grp := ex[1];
    var c := AttributeColonType;
    assert ex[1..][1..] == [AttrDictDir(false)];
    assert ex[1..] == [grp, AttrDictDir(false)];
    assert grp.thenElements[1..] == [Literal(":"), Literal("x")];
    assert CheckRangeForElement(c, grp.thenElements[1..], false) == ScanFailed(Literal(":"));
    assert CheckRangeForElement(c, grp.thenElements, true) == ScanSucceeded;
    assert CheckRangeForElement(c, [AttrDictDir(false)], false) == ScanReachedEnd;
    assert CheckRangeForElement(c, ex[1..], false) == ScanReachedEnd;
    assert VerifyAdjacentElements(c, grp.thenElements) == AdjacentFailed(GenericAttribute(1, "b"), Literal(":"));
    assert VerifyAdjacentAsWritten(c, grp.thenElements) == AdjacentFailed(GenericAttribute(1, "b"), Literal(":"));
    assert VerifyAdjacentAsWritten(c, ex[1..]).AdjacentFailed?;
    assert VerifyAdjacentElements(c, ex[1..]) == AdjacentFailed(GenericAttribute(1, "b"), Literal(":"));
  }

  /**
   * `verifyAttributeColonType`, on the corrected scan: it also rejects formats
   * such as `AmbiguousExample()` that the loop as written lets through.
   */
  function VerifyAttributeColonType(es: seq<Element>): (r: Outcome<FormatError>)
    ensures r.Fail? <==> VerifyAdjacentElements(AttributeColonType, es).AdjacentFailed?
    ensures r.Fail? ==> r.error.ColonAfterAttribute?
  {
    match VerifyAdjacentElements(AttributeColonType, es)
    case AdjacentFailed(base, _) => Fail(ColonAfterAttribute(base.attr.name))
    case _ => Pass
  }

  /**
   * `verifyAttrDictRegion`, on the corrected scan: every `attr-dict` base is
   * checked, not only those before the first scan that reaches the end.
   */
  function VerifyAttrDictRegion(es: seq<Element>): (r: Outcome<FormatError>)
    ensures r.Fail? <==> VerifyAdjacentElements(AttrDictRegion, es).AdjacentFailed?
    ensures r.Fail? ==> r.error.RegionAfterAttrDict?
  {
    match VerifyAdjacentElements(AttrDictRegion, es)
    case AdjacentFailed(_, culprit) => Fail(RegionAfterAttrDict(culprit.region.name))
    case _ => Pass
  }
}
