/**
 * The checks `verify` makes once the whole format is parsed: that every
 * operand, region and successor appears, that every operand and result
 * type is bound, recovered from a trait-derived resolver or built by a
 * constant builder, and which attributes are inferred rather than parsed.
 */
module FormatVerify {
  import opened Wrappers
  import opened OpSchema
  import opened FormatElements
  import opened FormatBinding
  import opened FormatResolution
  import opened BuildablePool

  /**
   * How the parser obtains the type of one operand or result: a builder
   * index into the buildable-type table, or a resolver and its transformer.
   * Neither is set when the format binds the type.
   */
  datatype TypeResolution = TypeResolution(builderIdx: Option<nat>, resolver: Option<ResolverArg>, transformer: Option<string>)

  const UNRESOLVED: TypeResolution := TypeResolution(None, None, None)

  /** What `verifyOperands` or `verifyResults` decides for one operand or result. */
  datatype TypeDecision =
    | TypeBound                                  // the format binds the type
    | FromResolver(inst: TypeResolutionInstance) // recovered from another argument
    | FromBuilder(call: string)                  // built by the constraint's builder
    | MissingOperand                             // the operand is not in the format
    | NotBuildable                               // no way to obtain the type

  predicate IsError(d: TypeDecision) {
    d.MissingOperand? || d.NotBuildable?
  }

  /**
   * The decision for operand `i`. Presence is checked first; then a bound
   * type wins over a resolver, and a resolver over the builder, which
   * cannot be used for a variable-length operand under `operands`.
   */
  function OperandDecision(op: Operator, b: Bindings, m: ResolverMap, i: nat): (d: TypeDecision)
    requires i < |op.operands|
    ensures d == MissingOperand <==> !b.allOperands && i !in b.seenOperands
    ensures d == TypeBound <==> (b.allOperands || i in b.seenOperands) && (b.allOperandTypes || i in b.seenOperandTypes)
    ensures d.FromResolver? ==> Lookup(m, op.operands[i].name) == Some(d.inst) && !b.allOperandTypes && i !in b.seenOperandTypes
    ensures d.FromBuilder? ==> op.operands[i].builderCall == Some(d.call) && Lookup(m, op.operands[i].name).None? &&
                               !(b.allOperands && IsVariableLength(op.operands[i]))
    ensures d == NotBuildable <==>
              && (b.allOperands || i in b.seenOperands)
              && !(b.allOperandTypes || i in b.seenOperandTypes)
              && Lookup(m, op.operands[i].name).None?
              && (op.operands[i].builderCall.None? || (b.allOperands && IsVariableLength(op.operands[i])))
  {
    var operand := op.operands[i];
    if !b.allOperands && i !in b.seenOperands then MissingOperand
    else if b.allOperandTypes || i in b.seenOperandTypes then TypeBound
    else match Lookup(m, operand.name)
      case Some(inst) => FromResolver(inst)
      case None =>
        if operand.builderCall.None? || (b.allOperands && IsVariableLength(operand)) then NotBuildable
        else FromBuilder(operand.builderCall.value)
  }

  /**
   * The decision for result `i`: a bound type wins over a resolver, and a
   * resolver over the builder, which cannot be used for a variable-length
   * result.
   */
  function ResultDecision(op: Operator, b: Bindings, m: ResolverMap, i: nat): (d: TypeDecision)
    requires i < |op.results|
    ensures d != MissingOperand
    ensures d == TypeBound <==> i in b.seenResultTypes
    ensures d.FromResolver? ==> Lookup(m, op.results[i].name) == Some(d.inst) && i !in b.seenResultTypes
    ensures d.FromBuilder? ==> op.results[i].builderCall == Some(d.call) && !IsVariableLength(op.results[i]) &&
                               Lookup(m, op.results[i].name).None?
    ensures d == NotBuildable <==>
              && i !in b.seenResultTypes
              && Lookup(m, op.results[i].name).None?
              && (op.results[i].builderCall.None? || IsVariableLength(op.results[i]))
  {
    var result := op.results[i];
    if i in b.seenResultTypes then TypeBound
    else match Lookup(m, result.name)
      case Some(inst) => FromResolver(inst)
      case None =>
        if result.builderCall.None? || IsVariableLength(result) then NotBuildable
        else FromBuilder(result.builderCall.value)
  }

  /** The decisions for all operands, in order. */
  function OperandDecisions(op: Operator, b: Bindings, m: ResolverMap): (ds: seq<TypeDecision>)
    ensures |ds| == |op.operands| && forall i :: 0 <= i < |ds| ==> ds[i] == OperandDecision(op, b, m, i)
  {
    seq(|op.operands|, i requires 0 <= i < |op.operands| => OperandDecision(op, b, m, i))
  }

  /** The decisions for all results, in order. */
  function ResultDecisions(op: Operator, b: Bindings, m: ResolverMap): (ds: seq<TypeDecision>)
    ensures |ds| == |op.results| && forall i :: 0 <= i < |ds| ==> ds[i] == ResultDecision(op, b, m, i)
  {
    seq(|op.results|, i requires 0 <= i < |op.results| => ResultDecision(op, b, m, i))
  }

  /** The builder calls a sequence of decisions uses, in order. */
  function BuilderCalls(ds: seq<TypeDecision>): (calls: seq<string>)
    ensures forall c :: c in calls <==> exists i :: 0 <= i < |ds| && ds[i] == FromBuilder(c)
    decreases |ds|
  {
    if |ds| == 0 then []
    else
      var d := ds[|ds| - 1];
      assert forall i :: 0 <= i < |ds| - 1 ==> ds[..|ds| - 1][i] == ds[i];
      BuilderCalls(ds[..|ds| - 1]) + (if d.FromBuilder? then [d.call] else [])
  }

  /** The resolution recorded for a decision; the builder index is the call's index in the table. */
  function Resolve(t: TypeResolution, d: TypeDecision, pool: seq<string>): (r: TypeResolution)
    requires d.FromBuilder? ==> d.call in pool
    ensures d.FromBuilder? ==> r.builderIdx.Some? && r.builderIdx.value < |pool| && pool[r.builderIdx.value] == d.call
    ensures d.FromResolver? ==> r.resolver == Some(d.inst.resolver) && r.transformer == d.inst.transformer
    ensures !d.FromBuilder? && !d.FromResolver? ==> r == t
  {
    match d
    case FromResolver(inst) => t.(resolver := Some(inst.resolver), transformer := inst.transformer)
    case FromBuilder(call) => t.(builderIdx := Some(IndexOf(pool, call)))
    case _ => t
  }

  /** The error reported for a failing operand or result. */
  function DecisionError(d: TypeDecision, i: nat, isOperand: bool): FormatError {
    if d.MissingOperand? then OperandNotFound(i)
    else if isOperand then OperandTypeNotFound(i)
    else ResultTypeNotFound(i)
  }

  /** The table after acting on one decision. */
  function NextPool(pool: seq<string>, d: TypeDecision): seq<string> {
    if d.FromBuilder? then Insert(pool, d.call) else pool
  }

  /**
   * The first `n` decisions succeeded, and `types'` records each of them
   * against the table `pool`; the other entries of `types` are unchanged.
   */
  ghost predicate ResolvedUpTo(ds: seq<TypeDecision>, types: seq<TypeResolution>, types': seq<TypeResolution>,
                               pool: seq<string>, n: nat) {
    && n <= |ds| == |types| == |types'|
    && (forall j :: 0 <= j < n ==> Recorded(ds[j], types[j], types'[j], pool))
    && (forall j :: n <= j < |types| ==> types'[j] == types[j])
  }

  /** Every resolution with its decision recorded against `pool`; entries past the decisions stay as they are. */
  function ResolvedAll(ds: seq<TypeDecision>, types: seq<TypeResolution>, pool: seq<string>): (r: seq<TypeResolution>)
    requires forall j :: 0 <= j < |ds| && ds[j].FromBuilder? ==> ds[j].call in pool
    ensures |r| == |types|
    ensures forall j :: 0 <= j < |types| ==> r[j] == if j < |ds| then Resolve(types[j], ds[j], pool) else types[j]
  {
    seq(|types|, j requires 0 <= j < |types| => if j < |ds| then Resolve(types[j], ds[j], pool) else types[j])
  }

  /** Every builder call of the decisions is in the table once they are all inserted. */
  lemma BuilderCallsInserted(ds: seq<TypeDecision>, pool: seq<string>)
    ensures forall j :: 0 <= j < |ds| && ds[j].FromBuilder? ==> ds[j].call in InsertAll(pool, BuilderCalls(ds))
  {
    InsertAllContains(pool, BuilderCalls(ds));
    forall j | 0 <= j < |ds| && ds[j].FromBuilder?
      ensures ds[j].call in BuilderCalls(ds)
    {
      assert ds[j] == FromBuilder(ds[j].call);
    }
  }

  /** Once every decision is recorded, the resolutions are exactly those the decisions give. */
  lemma ResolvedUpToIsResolvedAll(ds: seq<TypeDecision>, types: seq<TypeResolution>, types': seq<TypeResolution>,
                                  pool: seq<string>)
    requires ResolvedUpTo(ds, types, types', pool, |ds|)
    ensures types' == ResolvedAll(ds, types, pool)
  {
    assert forall j :: 0 <= j < |types| ==> Recorded(ds[j], types[j], types'[j], pool);
  }

  /** Decision `d` succeeded and `t'` is `t` with it recorded against `pool`. */
  ghost predicate Recorded(d: TypeDecision, t: TypeResolution, t': TypeResolution, pool: seq<string>) {
    !IsError(d) && (d.FromBuilder? ==> d.call in pool) && t' == Resolve(t, d, pool)
  }

  /**
   * Checking decisions in order: it fails exactly when one does, with the
   * error of the first that does, and otherwise every decision is recorded
   * and the builder calls are added to the table in first-use order.
   */
  ghost predicate CheckedInOrder(ds: seq<TypeDecision>, types: seq<TypeResolution>, types': seq<TypeResolution>,
                                 pool: seq<string>, pool': seq<string>, outcome: Outcome<FormatError>, isOperand: bool) {
    && (outcome.Pass? <==> forall i :: 0 <= i < |ds| ==> !IsError(ds[i]))
    && (outcome.Fail? ==> exists i: nat :: FirstErrorAt(ds, i) && outcome.error == DecisionError(ds[i], i, isOperand))
    && (outcome.Pass? ==> ResolvedUpTo(ds, types, types', pool', |ds|) &&
                          pool' == InsertAll(pool, BuilderCalls(ds)) && NoDuplicates(pool'))
  }

  /** Decision `i` is the first that fails. */
  ghost predicate FirstErrorAt(ds: seq<TypeDecision>, i: nat) {
    i < |ds| && IsError(ds[i]) && forall j :: 0 <= j < i ==> !IsError(ds[j])
  }

  /** Acting on one successful decision extends what is resolved by one. */
  lemma ResolveStep(ds: seq<TypeDecision>, types: seq<TypeResolution>, types0: seq<TypeResolution>,
                    pool: seq<string>, pool0: seq<string>, n: nat)
    requires ResolvedUpTo(ds, types, types0, pool0, n) && n < |ds| && !IsError(ds[n])
    requires pool0 == InsertAll(pool, BuilderCalls(ds[..n])) && NoDuplicates(pool0)
    ensures var pool1 := NextPool(pool0, ds[n]);
            && ResolvedUpTo(ds, types, types0[n := Resolve(types0[n], ds[n], pool1)], pool1, n + 1)
            && pool1 == InsertAll(pool, BuilderCalls(ds[..n + 1]))
            && NoDuplicates(pool1)
  {
    var d := ds[n];
    InsertKeepsIndices(pool0, if d.FromBuilder? then d.call else "");
    assert ds[..n + 1][..n] == ds[..n];
    if d.FromBuilder? {
      assert BuilderCalls(ds[..n + 1]) == BuilderCalls(ds[..n]) + [d.call];
      assert (BuilderCalls(ds[..n]) + [d.call])[..|BuilderCalls(ds[..n])|] == BuilderCalls(ds[..n]);
    } else {
      assert BuilderCalls(ds[..n + 1]) == BuilderCalls(ds[..n]);
    }
  }

  /**
   * One operand of `verifyOperands`: the operand must be in the format; a
   * type the format binds needs nothing more; otherwise a resolver, then
   * the builder. Returns the error, or the table and resolution with the
   * decision recorded.
   */
  method CheckOperand(op: Operator, b: Bindings, m: ResolverMap, i: nat, pool: seq<string>, t: TypeResolution)
    returns (err: Option<FormatError>, pool': seq<string>, t': TypeResolution)
    requires i < |op.operands|
    ensures var d := OperandDecision(op, b, m, i);
            && (err.Some? <==> IsError(d))
            && (err.Some? ==> err.value == DecisionError(d, i, true))
            && (err.None? ==> pool' == NextPool(pool, d) && (d.FromBuilder? ==> d.call in pool') && t' == Resolve(t, d, pool'))
  {
    var operand := op.operands[i];
    pool', t' := pool, t;
    if !b.allOperands && i !in b.seenOperands {
      return Some(OperandNotFound(i)), pool', t';
    }
    err := None;
    if !(b.allOperandTypes || i in b.seenOperandTypes) {
      var found := Lookup(m, operand.name);
      if found.Some? {
        t' := t.(resolver := Some(found.value.resolver), transformer := found.value.transformer);
      } else {
        if operand.builderCall.None? || (b.allOperands && IsVariableLength(operand)) {
          return Some(OperandTypeNotFound(i)), pool', t';
        }
        var call := operand.builderCall.value;
        pool' := Insert(pool, call);
        t' := t.(builderIdx := Some(IndexOf(pool', call)));
      }
    }
  }

  /**
   * One result of `verifyResults`: a type the format binds needs nothing
   * more; otherwise a resolver, then the builder of a fixed-length result.
   */
  method CheckResult(op: Operator, b: Bindings, m: ResolverMap, i: nat, pool: seq<string>, t: TypeResolution)
    returns (err: Option<FormatError>, pool': seq<string>, t': TypeResolution)
    requires i < |op.results|
    ensures var d := ResultDecision(op, b, m, i);
            && (err.Some? <==> IsError(d))
            && (err.Some? ==> err.value == DecisionError(d, i, false))
            && (err.None? ==> pool' == NextPool(pool, d) && (d.FromBuilder? ==> d.call in pool') && t' == Resolve(t, d, pool'))
  {
    var result := op.results[i];
    pool', t' := pool, t;
    err := None;
    if i !in b.seenResultTypes {
      var found := Lookup(m, result.name);
      if found.Some? {
        t' := t.(resolver := Some(found.value.resolver), transformer := found.value.transformer);
      } else {
        if result.builderCall.None? || IsVariableLength(result) {
          return Some(ResultTypeNotFound(i)), pool', t';
        }
        var call := result.builderCall.value;
        pool' := Insert(pool, call);
        t' := t.(builderIdx := Some(IndexOf(pool', call)));
      }
    }
  }

  /**
   * `verifyOperands`: checks every operand in order and records how its
   * type is obtained, growing the buildable-type table. Fails at the first
   * operand missing from the format or whose type cannot be obtained.
   */
  method VerifyOperands(op: Operator, b: Bindings, m: ResolverMap, pool: seq<string>, types: seq<TypeResolution>)
    returns (outcome: Outcome<FormatError>, pool': seq<string>, types': seq<TypeResolution>)
    requires |types| == |op.operands| && NoDuplicates(pool)
    ensures CheckedInOrder(OperandDecisions(op, b, m), types, types', pool, pool', outcome, true)
  {
    ghost var ds := OperandDecisions(op, b, m);
    pool' := pool;
    types' := types;
    var i := 0;
    while i < |op.operands|
      invariant 0 <= i <= |op.operands|
      invariant ResolvedUpTo(ds, types, types', pool', i)
      invariant pool' == InsertAll(pool, BuilderCalls(ds[..i])) && NoDuplicates(pool')
    {
      var err, pool1, t1 := CheckOperand(op, b, m, i, pool', types'[i]);
      if err.Some? {
        assert FirstErrorAt(ds, i);
        return Fail(err.value), pool', types';
      }
      ResolveStep(ds, types, types', pool, pool', i);
      pool', types' := pool1, types'[i := t1];
      i := i + 1;
    }
    assert ds[..i] == ds;
    outcome := Pass;
  }

  /** Whether `verifyResults` switches on result-type inference instead of checking each result. */
  predicate InfersResultTypes(op: Operator, b: Bindings, canInfer: bool) {
    !b.allResultTypes && |op.results| > 0 && canInfer &&
    forall j :: 0 <= j < |op.results| ==> j !in b.seenResultTypes
  }

  /**
   * `verifyResults`: nothing to check under `type(results)`; inference when
   * no result type is bound and the operation infers its result types;
   * otherwise every result in order, as for operands.
   */
  method VerifyResults(op: Operator, b: Bindings, m: ResolverMap, canInfer: bool, pool: seq<string>, types: seq<TypeResolution>)
    returns (outcome: Outcome<FormatError>, infers: bool, pool': seq<string>, types': seq<TypeResolution>)
    requires |types| == |op.results| && NoDuplicates(pool)
    ensures infers == InfersResultTypes(op, b, canInfer)
    ensures b.allResultTypes || infers ==> outcome.Pass? && pool' == pool && types' == types
    ensures !b.allResultTypes && !infers ==>
              CheckedInOrder(ResultDecisions(op, b, m), types, types', pool, pool', outcome, false)
  {
    ghost var ds := ResultDecisions(op, b, m);
    pool' := pool;
    types' := types;
    infers := false;
    if b.allResultTypes {
      return Pass, infers, pool', types';
    }
    if |op.results| > 0 && FirstSet(b.seenResultTypes, |op.results|).None? && canInfer {
      infers := true;
      return Pass, infers, pool', types';
    }
    assert !InfersResultTypes(op, b, canInfer) by {
      if |op.results| > 0 && canInfer {
        var j := FirstSet(b.seenResultTypes, |op.results|).value;
        assert j in b.seenResultTypes;
      }
    }
    var i := 0;
    while i < |op.results|
      invariant 0 <= i <= |op.results|
      invariant ResolvedUpTo(ds, types, types', pool', i)
      invariant pool' == InsertAll(pool, BuilderCalls(ds[..i])) && NoDuplicates(pool')
    {
      var err, pool1, t1 := CheckResult(op, b, m, i, pool', types'[i]);
      if err.Some? {
        assert FirstErrorAt(ds, i);
        return Fail(err.value), infers, pool', types';
      }
      ResolveStep(ds, types, types', pool, pool', i);
      pool', types' := pool1, types'[i := t1];
      i := i + 1;
    }
    assert ds[..i] == ds;
    outcome := Pass;
  }

  /**
   * The resolver map as a value: the trait-derived resolver of every
   * operand and result name that has one. The checks look up no other key.
   */
  function ResolverMapOf(op: Operator, b: Bindings): (m: ResolverMap)
    ensures forall i :: 0 <= i < |op.operands| ==> Lookup(m, op.operands[i].name) == ResolverFor(op, b, op.traits, op.operands[i].name)
    ensures forall i :: 0 <= i < |op.results| ==> Lookup(m, op.results[i].name) == ResolverFor(op, b, op.traits, op.results[i].name)
  {
    var names := ConstraintNames(op.operands) + ConstraintNames(op.results);
    assert forall i :: 0 <= i < |op.operands| ==> names[i] == op.operands[i].name;
    assert forall i :: 0 <= i < |op.results| ==> names[|op.operands| + i] == op.results[i].name;
    map k | k in names && ResolverFor(op, b, op.traits, k).Some? :: ResolverFor(op, b, op.traits, k).value
  }

  /** The decisions depend on the resolver map only through the operand and result names. */
  lemma DecisionsAgree(op: Operator, b: Bindings, m1: ResolverMap, m2: ResolverMap)
    requires forall i :: 0 <= i < |op.operands| ==> Lookup(m1, op.operands[i].name) == Lookup(m2, op.operands[i].name)
    requires forall i :: 0 <= i < |op.results| ==> Lookup(m1, op.results[i].name) == Lookup(m2, op.results[i].name)
    ensures OperandDecisions(op, b, m1) == OperandDecisions(op, b, m2)
    ensures ResultDecisions(op, b, m1) == ResultDecisions(op, b, m2)
  {
  }

  /** After a successful check, the type of every operand is bound, resolved or built. */
  lemma EveryOperandTypeObtained(op: Operator, b: Bindings, m: ResolverMap, pool: seq<string>, t: TypeResolution, i: nat)
    requires i < |op.operands| && !IsError(OperandDecision(op, b, m, i))
    requires OperandDecision(op, b, m, i).FromBuilder? ==> OperandDecision(op, b, m, i).call in pool
    ensures var r := Resolve(t, OperandDecision(op, b, m, i), pool);
            || b.allOperandTypes || i in b.seenOperandTypes
            || (r.resolver.Some? && Lookup(m, op.operands[i].name).Some?)
            || (r.builderIdx.Some? && r.builderIdx.value < |pool| &&
                Some(pool[r.builderIdx.value]) == op.operands[i].builderCall)
  {
  }

  /** Builder calls share table entries: two operands with the same builder get the same index. */
  lemma SharedBuilderSharesIndex(pool: seq<string>, t1: TypeResolution, t2: TypeResolution, c: string)
    requires c in pool
    ensures Resolve(t1, FromBuilder(c), pool).builderIdx == Resolve(t2, FromBuilder(c), pool).builderIdx
  {
  }

  /**
   * The buildable-type table after both checks: the entries it had, then
   * each builder call first used by a result, then by an operand, once
   * and in order of first use.
   */
  lemma BuildableTypesInFirstUseOrder(pool: seq<string>, calls: seq<string>)
    requires NoDuplicates(pool)
    ensures var r := InsertAll(pool, calls);
            && pool <= r && NoDuplicates(r)
            && (forall c :: c in calls ==> c in r)
            && (forall p :: |pool| <= p < |r| ==> r[p] in calls && r[p] !in pool)
            && OrderedByFirstUse(r, |pool|, calls)
  {
    InsertAllExtends(pool, calls);
    InsertAllContains(pool, calls);
    InsertAllAddsOnlyNew(pool, calls);
    InsertAllFirstUseOrder(pool, calls);
  }

  // ---- Regions, successors and inferred attributes ----------------------------

  /** `verifyRegions`: every region is in the format, unless `regions` is. */
  method VerifyRegions(op: Operator, b: Bindings) returns (outcome: Outcome<FormatError>)
    ensures outcome.Pass? <==> b.hasAllRegions || forall i :: 0 <= i < |op.regions| ==> i in b.seenRegions
    ensures outcome.Fail? ==>
              exists i :: 0 <= i < |op.regions| && i !in b.seenRegions && outcome.error == RegionNotFound(i) &&
                          forall j :: 0 <= j < i ==> j in b.seenRegions
  {
    if b.hasAllRegions {
      return Pass;
    }
    var i := 0;
    while i < |op.regions|
      invariant 0 <= i <= |op.regions|
      invariant forall j :: 0 <= j < i ==> j in b.seenRegions
    {
      if i !in b.seenRegions {
        return Fail(RegionNotFound(i));
      }
      i := i + 1;
    }
    return Pass;
  }

  /** `verifySuccessors`: every successor is in the format, unless `successors` is. */
  method VerifySuccessors(op: Operator, b: Bindings) returns (outcome: Outcome<FormatError>)
    ensures outcome.Pass? <==> b.hasAllSuccessors || forall i :: 0 <= i < |op.successors| ==> i in b.seenSuccessors
    ensures outcome.Fail? ==>
              exists i :: 0 <= i < |op.successors| && i !in b.seenSuccessors && outcome.error == SuccessorNotFound(i) &&
                          forall j :: 0 <= j < i ==> j in b.seenSuccessors
  {
    if b.hasAllSuccessors {
      return Pass;
    }
    var i := 0;
    while i < |op.successors|
      invariant 0 <= i <= |op.successors|
      invariant forall j :: 0 <= j < i ==> j in b.seenSuccessors
    {
      if i !in b.seenSuccessors {
        return Fail(SuccessorNotFound(i));
      }
      i := i + 1;
    }
    return Pass;
  }

  /** The group-size attributes of the variadic-of-variadic operands among `operands`. */
  function InferredFrom(op: Operator, operands: set<nat>): (r: set<string>)
    ensures forall a :: a in r <==>
              exists i :: i in operands && i < |op.operands| &&
                          op.operands[i].isVariadicOfVariadic && op.operands[i].segmentSizeAttr == a
  {
    set i | i in operands && i < |op.operands| && op.operands[i].isVariadicOfVariadic :: op.operands[i].segmentSizeAttr
  }

  /** The group-size attributes of the variadic-of-variadic operands bound in the format. */
  function InferredAttributes(op: Operator, b: Bindings): set<string> {
    InferredFrom(op, b.seenOperands)
  }

  lemma InferredFromAdd(op: Operator, done: set<nat>, i: nat)
    ensures InferredFrom(op, done + {i}) ==
            InferredFrom(op, done) +
            (if i < |op.operands| && op.operands[i].isVariadicOfVariadic then {op.operands[i].segmentSizeAttr} else {})
  {
  }

  /** The loop of `verifyAttributes` over the bound operands; set order does not matter. */
  method CollectInferredAttributes(op: Operator, b: Bindings, inferred: set<string>) returns (out: set<string>)
    ensures out == inferred + InferredAttributes(op, b)
  {
    out := inferred;
    var rest := b.seenOperands;
    ghost var done: set<nat> := {};
    while rest != {}
      invariant done + rest == b.seenOperands && done !! rest
      invariant Collected(op, inferred, done, out)
      decreases |rest|
    {
      var i :| i in rest;
      ghost var out0 := out;
      if i < |op.operands| && op.operands[i].isVariadicOfVariadic {
        out := out + {op.operands[i].segmentSizeAttr};
      }
      CollectStep(op, inferred, done, out0, out, i);
      rest := rest - {i};
      done := done + {i};
    }
    assert done == b.seenOperands;
  }

  /** `out` holds `inferred` and the group-size attributes of the operands in `done`. */
  ghost predicate Collected(op: Operator, inferred: set<string>, done: set<nat>, out: set<string>) {
    out == inferred + InferredFrom(op, done)
  }

  lemma CollectStep(op: Operator, inferred: set<string>, done: set<nat>, out0: set<string>, out: set<string>, i: nat)
    requires Collected(op, inferred, done, out0)
    requires out == out0 + (if i < |op.operands| && op.operands[i].isVariadicOfVariadic then {op.operands[i].segmentSizeAttr} else {})
    ensures Collected(op, inferred, done + {i}, out)
  {
    InferredFromAdd(op, done, i);
  }

  /** Under `operands` no operand is bound singly, so no group size is inferred. */
  lemma NothingInferredUnderOperands(op: Operator, b: Bindings)
    requires Consistent(op, b) && b.allOperands
    ensures InferredAttributes(op, b) == {}
  {
  }
}
