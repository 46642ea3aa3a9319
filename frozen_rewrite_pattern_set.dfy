/**
 * The native-pattern part of building a FrozenRewritePatternSet
 * (FrozenRewritePatternSet.cpp): patterns are filtered by the enabled and
 * disabled label lists, and each survivor is filed under the operations it
 * can match.
 *
 * A pattern is identified by its index in the input pattern list; the
 * lists and map buckets hold these indices, in the order they were appended.
 * The context's registered operations and their interfaces and traits are
 * given as a Registry value.
 */
module FrozenPatterns {
  import opened Wrappers

  type OperationName = string
  type TypeID = nat

  datatype RewritePattern = RewritePattern(
    debugName: string,
    debugLabels: seq<string>,
    rootKind: Option<OperationName>,
    rootInterfaceID: Option<TypeID>,
    rootTraitID: Option<TypeID>)

  /** The registered operations of the context, and which interfaces and traits each has. */
  datatype Registry = Registry(
    registeredOperations: seq<OperationName>,
    interfaces: set<(OperationName, TypeID)>,
    traits: set<(OperationName, TypeID)>)

  /** `getRegisteredOperations` lists each registered operation once. */
  predicate NoDuplicates(ops: seq<OperationName>)
  {
    forall i, j :: 0 <= i < j < |ops| ==> ops[i] != ops[j]
  }

  /** The pattern's debug name or one of its debug labels is in `labels`. */
  predicate Labelled(p: RewritePattern, labels: set<string>)
  {
    p.debugName in labels || exists i :: 0 <= i < |p.debugLabels| && p.debugLabels[i] in labels
  }

  /** The filter: kept when enabled (or nothing is enabled) and not disabled. */
  predicate Survives(p: RewritePattern, disabled: set<string>, enabled: set<string>)
  {
    (enabled == {} || Labelled(p, enabled)) && !(disabled != {} && Labelled(p, disabled))
  }

  /** Which of the two owning lists takes a surviving pattern. */
  datatype Owner = OpSpecificOwner | AnyOpOwner

  function OwnerOf(p: RewritePattern): Owner
  {
    if p.rootKind.Some? || p.rootInterfaceID.Some? || p.rootTraitID.Some? then OpSpecificOwner
    else AnyOpOwner
  }

  /** How a pattern without a root kind selects registered operations. */
  datatype RootPredicate = HasInterface(interfaceID: TypeID) | HasTrait(traitID: TypeID)

  predicate Holds(reg: Registry, op: OperationName, pred: RootPredicate)
  {
    match pred
    case HasInterface(id) => (op, id) in reg.interfaces
    case HasTrait(id) => (op, id) in reg.traits
  }

  /** The registry-walking predicate of a pattern, when it is filed through addToOpsWhen. */
  function RootPredicateOf(p: RewritePattern): Option<RootPredicate>
  {
    if p.rootKind.Some? then None
    else if p.rootInterfaceID.Some? then Some(HasInterface(p.rootInterfaceID.value))
    else if p.rootTraitID.Some? then Some(HasTrait(p.rootTraitID.value))
    else None
  }

  /**
   * The operations whose bucket receives the pattern: its root kind, else
   * every registered operation with its root interface, else every registered
   * operation with its root trait.
   */
  predicate Targets(reg: Registry, p: RewritePattern, op: OperationName)
  {
    if p.rootKind.Some? then op == p.rootKind.value
    else
      match RootPredicateOf(p)
      case Some(pred) => op in reg.registeredOperations && Holds(reg, op, pred)
      case None => false
  }

  /** The constructor's arguments, with the label lists already turned into sets. */
  datatype Input = Input(
    patterns: seq<RewritePattern>,
    registry: Registry,
    disabled: set<string>,
    enabled: set<string>)

  /** A family of pattern indices: an owner list, one map bucket, or the registry users. */
  datatype Selector = OwnedBy(owner: Owner) | BucketOf(op: OperationName) | UsesRegistry

  predicate Selects(inp: Input, s: Selector, i: nat)
  {
    i < |inp.patterns| &&
    var p := inp.patterns[i];
    Survives(p, inp.disabled, inp.enabled) &&
    match s
    case OwnedBy(o) => OwnerOf(p) == o
    case BucketOf(op) => Targets(inp.registry, p, op)
    case UsesRegistry => RootPredicateOf(p).Some?
  }

  /** The indices below n that s selects, in increasing order. */
  function Selected(inp: Input, s: Selector, n: nat): seq<nat>
  {
    if n == 0 then []
    else Selected(inp, s, n - 1) + (if Selects(inp, s, n - 1) then [n - 1] else [])
  }

  /** The number of times the registry is read while filing the first n patterns. */
  function Fetches(inp: Input, n: nat): nat
  {
    var users := |Selected(inp, UsesRegistry, n)|;
    if |inp.registry.registeredOperations| == 0 then users
    else if users == 0 then 0 else 1
  }

  /** A map bucket, empty for an operation that has none. */
  function Bucket(m: map<OperationName, seq<nat>>, op: OperationName): seq<nat>
  {
    if op in m then m[op] else []
  }

  predicate StrictlyIncreasing(s: seq<nat>)
  {
    forall a, b :: 0 <= a < b < |s| ==> s[a] < s[b]
  }

  // ---------------------------------------------------------------------------
  // Properties of the specification.
  // ---------------------------------------------------------------------------

  /** Selected holds exactly the selected indices below n. */
  lemma {:induction false} SelectedMembers(inp: Input, s: Selector, n: nat, i: nat)
    ensures i in Selected(inp, s, n) <==> i < n && Selects(inp, s, i)
  {
    if n > 0 {
      SelectedMembers(inp, s, n - 1, i);
    }
  }

  /** Appending in loop order keeps the input order: each family is strictly increasing. */
  lemma {:induction false} SelectedIncreasing(inp: Input, s: Selector, n: nat)
    ensures StrictlyIncreasing(Selected(inp, s, n))
    ensures forall x :: x in Selected(inp, s, n) ==> x < n
  {
    if n > 0 {
      SelectedIncreasing(inp, s, n - 1);
      var prev := Selected(inp, s, n - 1);
      assert forall x :: x in prev ==> x < n - 1;
      if Selects(inp, s, n - 1) {
        var cur := prev + [n - 1];
        forall a, b | 0 <= a < b < |cur| ensures cur[a] < cur[b] {
          if b == |prev| {
            assert cur[a] in prev;
          }
        }
      }
    }
  }

  /** A surviving pattern is owned by exactly one list; a dropped one by none and is in no bucket. */
  lemma ExactlyOneOwner(inp: Input, i: nat, op: OperationName)
    requires i < |inp.patterns|
    ensures var kept := Survives(inp.patterns[i], inp.disabled, inp.enabled);
      var n := |inp.patterns|;
      (i in Selected(inp, OwnedBy(OpSpecificOwner), n) || i in Selected(inp, OwnedBy(AnyOpOwner), n)) == kept
      && !(i in Selected(inp, OwnedBy(OpSpecificOwner), n) && i in Selected(inp, OwnedBy(AnyOpOwner), n))
      && (!kept ==> i !in Selected(inp, BucketOf(op), n))
  {
    var n := |inp.patterns|;
    SelectedMembers(inp, OwnedBy(OpSpecificOwner), n, i);
    SelectedMembers(inp, OwnedBy(AnyOpOwner), n, i);
    SelectedMembers(inp, BucketOf(op), n, i);
  }

  /** With a non-empty enabled list, every filed pattern is enabled by its name or a label. */
  lemma FiledPatternsAreEnabled(inp: Input, s: Selector, i: nat)
    requires inp.enabled != {} && i in Selected(inp, s, |inp.patterns|)
    ensures i < |inp.patterns| && Labelled(inp.patterns[i], inp.enabled)
  {
    SelectedMembers(inp, s, |inp.patterns|, i);
  }

  /** A disabled name or label drops the pattern, even when it is also enabled. */
  lemma DisabledWins(inp: Input, s: Selector, i: nat)
    requires i < |inp.patterns| && Labelled(inp.patterns[i], inp.disabled)
    ensures i !in Selected(inp, s, |inp.patterns|)
  {
    SelectedMembers(inp, s, |inp.patterns|, i);
  }

  /** A root-kind pattern lands in its root's bucket and no other, even with an interface or trait. */
  lemma RootKindFirst(inp: Input, i: nat, op: OperationName)
    requires i < |inp.patterns| && inp.patterns[i].rootKind.Some?
    requires Survives(inp.patterns[i], inp.disabled, inp.enabled)
    ensures i in Selected(inp, BucketOf(op), |inp.patterns|) <==> op == inp.patterns[i].rootKind.value
    ensures i !in Selected(inp, UsesRegistry, |inp.patterns|)
  {
    SelectedMembers(inp, BucketOf(op), |inp.patterns|, i);
    SelectedMembers(inp, UsesRegistry, |inp.patterns|, i);
  }

  /** An interface-rooted pattern lands exactly in the buckets of registered operations with the interface. */
  lemma InterfaceBeforeTrait(inp: Input, i: nat, op: OperationName)
    requires i < |inp.patterns| && inp.patterns[i].rootKind.None? && inp.patterns[i].rootInterfaceID.Some?
    requires Survives(inp.patterns[i], inp.disabled, inp.enabled)
    ensures i in Selected(inp, BucketOf(op), |inp.patterns|)
        <==> op in inp.registry.registeredOperations
             && (op, inp.patterns[i].rootInterfaceID.value) in inp.registry.interfaces
  {
    SelectedMembers(inp, BucketOf(op), |inp.patterns|, i);
  }

  /** A surviving pattern with no root kind, interface or trait is in no bucket. */
  lemma AnyOpInNoBucket(inp: Input, i: nat, op: OperationName)
    requires i in Selected(inp, OwnedBy(AnyOpOwner), |inp.patterns|)
    ensures i !in Selected(inp, BucketOf(op), |inp.patterns|)
  {
    SelectedMembers(inp, OwnedBy(AnyOpOwner), |inp.patterns|, i);
    SelectedMembers(inp, BucketOf(op), |inp.patterns|, i);
  }

  /** Every bucket entry is also owned by the op-specific list. */
  lemma BucketsAreOpSpecific(inp: Input, i: nat, op: OperationName)
    requires i in Selected(inp, BucketOf(op), |inp.patterns|)
    ensures i in Selected(inp, OwnedBy(OpSpecificOwner), |inp.patterns|)
  {
    SelectedMembers(inp, BucketOf(op), |inp.patterns|, i);
    SelectedMembers(inp, OwnedBy(OpSpecificOwner), |inp.patterns|, i);
  }

  /** The registered-operation list is read at most once when it is non-empty. */
  lemma {:induction false} FetchedAtMostOnce(inp: Input, n: nat)
    requires |inp.registry.registeredOperations| > 0
    ensures Fetches(inp, n) <= 1
    ensures Fetches(inp, n) == 1 <==> exists i :: 0 <= i < n && Selects(inp, UsesRegistry, i)
  {
    if Fetches(inp, n) == 1 {
      var i := Selected(inp, UsesRegistry, n)[0];
      assert i in Selected(inp, UsesRegistry, n);
      SelectedMembers(inp, UsesRegistry, n, i);
    }
    if exists i :: 0 <= i < n && Selects(inp, UsesRegistry, i) {
      var i :| 0 <= i < n && Selects(inp, UsesRegistry, i);
      SelectedMembers(inp, UsesRegistry, n, i);
    }
  }

  // ---------------------------------------------------------------------------
  // Filing, as a function of the input.
  // ---------------------------------------------------------------------------

  /** The tables of a frozen pattern set, as a value. */
  datatype Tables = Tables(
    patterns: seq<RewritePattern>,
    opSpecificMap: map<OperationName, seq<nat>>,
    opSpecificList: seq<nat>,
    anyOp: seq<nat>,
    fetches: nat)

  /** The tables of a set with nothing filed yet. */
  function EmptyTables(pats: seq<RewritePattern>): Tables
  {
    Tables(pats, map[], [], [], 0)
  }

  /** A map bucket, after pattern k joined the bucket of one operation. */
  function AppendTo(m: map<OperationName, seq<nat>>, op: OperationName, k: nat): map<OperationName, seq<nat>>
  {
    m[op := Bucket(m, op) + [k]]
  }

  /** The loop of addToOpsWhen: pattern k joins the bucket of each of ops satisfying pred, in order. */
  function AppendAll(m: map<OperationName, seq<nat>>, reg: Registry, ops: seq<OperationName>, k: nat, pred: RootPredicate)
    : map<OperationName, seq<nat>>
    decreases |ops|
  {
    if |ops| == 0 then m
    else
      var m' := AppendAll(m, reg, ops[..|ops| - 1], k, pred);
      var op := ops[|ops| - 1];
      if Holds(reg, op, pred) then AppendTo(m', op, k) else m'
  }

  /**
   * One iteration of the constructor's loop on the tables and the cached
   * registered operations: a dropped pattern changes nothing; a root-kind
   * pattern joins its root's bucket; an interface- or trait-rooted one goes
   * through addToOpsWhen, which fetches the registered operations when the
   * cache is empty; any other joins the any-op list.
   */
  function FileStep(inp: Input, k: nat, t: Tables, opInfos: seq<OperationName>): (Tables, seq<OperationName>)
    requires k < |inp.patterns|
  {
    var pat := inp.patterns[k];
    if !Survives(pat, inp.disabled, inp.enabled) then (t, opInfos)
    else if pat.rootKind.Some? then
      (t.(opSpecificMap := AppendTo(t.opSpecificMap, pat.rootKind.value, k), opSpecificList := t.opSpecificList + [k]),
       opInfos)
    else if RootPredicateOf(pat).Some? then
      var ops := if |opInfos| == 0 then inp.registry.registeredOperations else opInfos;
      (t.(opSpecificMap := AppendAll(t.opSpecificMap, inp.registry, ops, k, RootPredicateOf(pat).value),
          opSpecificList := t.opSpecificList + [k],
          fetches := if |opInfos| == 0 then t.fetches + 1 else t.fetches),
       ops)
    else (t.(anyOp := t.anyOp + [k]), opInfos)
  }

  /** The tables and the cache after the first k iterations of the constructor's loop. */
  function FiledTables(inp: Input, k: nat): (Tables, seq<OperationName>)
    requires k <= |inp.patterns|
  {
    if k == 0 then (EmptyTables(inp.patterns), [])
    else
      var prev := FiledTables(inp, k - 1);
      FileStep(inp, k - 1, prev.0, prev.1)
  }

  /** Every operation with a map entry has at least one pattern in it. */
  ghost predicate NonEmptyBuckets(m: map<OperationName, seq<nat>>)
  {
    forall op :: op in m ==> m[op] != []
  }

  /** The tables hold exactly what the selectors give for the first k patterns; opInfos is the cache. */
  ghost predicate FiledAs(inp: Input, k: nat, t: Tables, opInfos: seq<OperationName>)
  {
    && k <= |inp.patterns| && t.patterns == inp.patterns
    && t.opSpecificList == Selected(inp, OwnedBy(OpSpecificOwner), k)
    && t.anyOp == Selected(inp, OwnedBy(AnyOpOwner), k)
    && (forall op {:trigger Bucket(t.opSpecificMap, op)} :: Bucket(t.opSpecificMap, op) == Selected(inp, BucketOf(op), k))
    && NonEmptyBuckets(t.opSpecificMap)
    && t.fetches == Fetches(inp, k)
    && opInfos == if Selected(inp, UsesRegistry, k) == [] then [] else inp.registry.registeredOperations
  }

  /** A map bucket after one bucket was replaced. */
  lemma BucketUpdate(m: map<OperationName, seq<nat>>, key: OperationName, v: seq<nat>, op: OperationName)
    ensures Bucket(m[key := v], op) == if op == key then v else Bucket(m, op)
  {
  }

  /** After the loop of addToOpsWhen, each listed operation satisfying pred has gained pattern k, and no other bucket changed. */
  lemma {:induction false} AppendAllBuckets(m: map<OperationName, seq<nat>>, reg: Registry, ops: seq<OperationName>,
                                            k: nat, pred: RootPredicate, op: OperationName)
    requires NoDuplicates(ops)
    ensures Bucket(AppendAll(m, reg, ops, k, pred), op) == Bucket(m, op) + (if op in ops && Holds(reg, op, pred) then [k] else [])
    decreases |ops|
  {
    if |ops| > 0 {
      var init := ops[..|ops| - 1];
      var last := ops[|ops| - 1];
      assert ops == init + [last];
      assert NoDuplicates(init);
      AppendAllBuckets(m, reg, init, k, pred, op);
      var m' := AppendAll(m, reg, init, k, pred);
      if Holds(reg, last, pred) {
        BucketUpdate(m', last, Bucket(m', last) + [k], op);
        if op == last {
          assert last !in init;
        }
      }
    }
  }

  /** The loop of addToOpsWhen leaves no bucket empty. */
  lemma {:induction false} AppendAllNonEmpty(m: map<OperationName, seq<nat>>, reg: Registry, ops: seq<OperationName>,
                                             k: nat, pred: RootPredicate)
    requires NonEmptyBuckets(m)
    ensures NonEmptyBuckets(AppendAll(m, reg, ops, k, pred))
    decreases |ops|
  {
    if |ops| > 0 {
      AppendAllNonEmpty(m, reg, ops[..|ops| - 1], k, pred);
    }
  }

  /** A dropped pattern leaves the tables as they were. */
  lemma DroppedStep(inp: Input, k: nat, t: Tables, opInfos: seq<OperationName>)
    requires k < |inp.patterns| && FiledAs(inp, k, t, opInfos)
    requires !Survives(inp.patterns[k], inp.disabled, inp.enabled)
    ensures FiledAs(inp, k + 1, t, opInfos)
  {
    assert forall s :: Selected(inp, s, k + 1) == Selected(inp, s, k);
  }

  /** A pattern with a root kind joins its root's bucket and the op-specific list. */
  lemma RootKindStep(inp: Input, k: nat, t: Tables, opInfos: seq<OperationName>)
    requires k < |inp.patterns| && FiledAs(inp, k, t, opInfos)
    requires Survives(inp.patterns[k], inp.disabled, inp.enabled) && inp.patterns[k].rootKind.Some?
    ensures FiledAs(inp, k + 1, FileStep(inp, k, t, opInfos).0, FileStep(inp, k, t, opInfos).1)
  {
    var root := inp.patterns[k].rootKind.value;
    var m := AppendTo(t.opSpecificMap, root, k);
    forall op ensures Bucket(m, op) == Selected(inp, BucketOf(op), k + 1) {
      BucketUpdate(t.opSpecificMap, root, Bucket(t.opSpecificMap, root) + [k], op);
    }
  }

  /** A pattern with no root kind, interface or trait joins the any-op list only. */
  lemma AnyOpStep(inp: Input, k: nat, t: Tables, opInfos: seq<OperationName>)
    requires k < |inp.patterns| && FiledAs(inp, k, t, opInfos)
    requires Survives(inp.patterns[k], inp.disabled, inp.enabled) && OwnerOf(inp.patterns[k]) == AnyOpOwner
    ensures FiledAs(inp, k + 1, t.(anyOp := t.anyOp + [k]), opInfos)
  {
    forall op ensures Bucket(t.opSpecificMap, op) == Selected(inp, BucketOf(op), k + 1) {
    }
  }

  /**
   * A pattern filed through addToOpsWhen: the registered operations are
   * fetched if not cached, the pattern joins the bucket of each one
   * satisfying its predicate, and once the op-specific list.
   */
  lemma RegistryStep(inp: Input, k: nat, t: Tables, opInfos: seq<OperationName>, pred: RootPredicate)
    requires NoDuplicates(inp.registry.registeredOperations)
    requires k < |inp.patterns| && FiledAs(inp, k, t, opInfos)
    requires Survives(inp.patterns[k], inp.disabled, inp.enabled) && RootPredicateOf(inp.patterns[k]) == Some(pred)
    ensures var ops := inp.registry.registeredOperations;
            FiledAs(inp, k + 1,
                    t.(opSpecificMap := AppendAll(t.opSpecificMap, inp.registry, ops, k, pred),
                       opSpecificList := t.opSpecificList + [k],
                       fetches := if |opInfos| == 0 then t.fetches + 1 else t.fetches),
                    ops)
  {
    var ops := inp.registry.registeredOperations;
    var m := AppendAll(t.opSpecificMap, inp.registry, ops, k, pred);
    forall op ensures Bucket(m, op) == Selected(inp, BucketOf(op), k + 1) {
      RegistryBucketAt(inp, k, pred, t.opSpecificMap, op);
    }
    AppendAllNonEmpty(t.opSpecificMap, inp.registry, ops, k, pred);
    RegistryFetchStep(inp, k, t.fetches, opInfos);
  }

  /** The bucket of one operation after a pattern is filed through addToOpsWhen. */
  lemma RegistryBucketAt(inp: Input, k: nat, pred: RootPredicate, m: map<OperationName, seq<nat>>, op: OperationName)
    requires NoDuplicates(inp.registry.registeredOperations)
    requires k < |inp.patterns| && Bucket(m, op) == Selected(inp, BucketOf(op), k)
    requires Survives(inp.patterns[k], inp.disabled, inp.enabled) && RootPredicateOf(inp.patterns[k]) == Some(pred)
    ensures Bucket(AppendAll(m, inp.registry, inp.registry.registeredOperations, k, pred), op) == Selected(inp, BucketOf(op), k + 1)
  {
    AppendAllBuckets(m, inp.registry, inp.registry.registeredOperations, k, pred, op);
  }

  /** Filing a registry user fetches the registered operations exactly when the cache is empty. */
  lemma RegistryFetchStep(inp: Input, k: nat, fetches: nat, opInfos: seq<OperationName>)
    requires k < |inp.patterns| && fetches == Fetches(inp, k)
    requires opInfos == if Selected(inp, UsesRegistry, k) == [] then [] else inp.registry.registeredOperations
    requires Selects(inp, UsesRegistry, k)
    ensures (if |opInfos| == 0 then fetches + 1 else fetches) == Fetches(inp, k + 1)
    ensures Selected(inp, UsesRegistry, k + 1) != []
  {
    assert Selected(inp, UsesRegistry, k + 1) == Selected(inp, UsesRegistry, k) + [k];
  }

  /** Each iteration of the constructor's loop keeps the tables equal to what the selectors give. */
  lemma FileStepKeepsFiled(inp: Input, k: nat, t: Tables, opInfos: seq<OperationName>)
    requires NoDuplicates(inp.registry.registeredOperations)
    requires k < |inp.patterns| && FiledAs(inp, k, t, opInfos)
    ensures FiledAs(inp, k + 1, FileStep(inp, k, t, opInfos).0, FileStep(inp, k, t, opInfos).1)
  {
    var pat := inp.patterns[k];
    if !Survives(pat, inp.disabled, inp.enabled) {
      DroppedStep(inp, k, t, opInfos);
    } else if pat.rootKind.Some? {
      RootKindStep(inp, k, t, opInfos);
    } else if RootPredicateOf(pat).Some? {
      RegistryStep(inp, k, t, opInfos, RootPredicateOf(pat).value);
      assert (if |opInfos| == 0 then inp.registry.registeredOperations else opInfos) == inp.registry.registeredOperations;
    } else {
      AnyOpStep(inp, k, t, opInfos);
    }
  }

  /** After k iterations the tables hold exactly what the selectors give for the first k patterns. */
  lemma {:induction false} FiledTablesAreSelected(inp: Input, k: nat)
    requires NoDuplicates(inp.registry.registeredOperations) && k <= |inp.patterns|
    ensures FiledAs(inp, k, FiledTables(inp, k).0, FiledTables(inp, k).1)
  {
    if k > 0 {
      FiledTablesAreSelected(inp, k - 1);
      var prev := FiledTables(inp, k - 1);
      FileStepKeepsFiled(inp, k - 1, prev.0, prev.1);
    }
  }

  // ---------------------------------------------------------------------------
  // The frozen pattern set.
  // ---------------------------------------------------------------------------

  class FrozenRewritePatternSet {
    /** The input patterns, which the lists below refer to by index. */
    var patterns: seq<RewritePattern>
    var nativeOpSpecificPatternMap: map<OperationName, seq<nat>>
    var nativeOpSpecificPatternList: seq<nat>
    var nativeAnyOpPatterns: seq<nat>
    /** How often the context's registered operations were read. */
    ghost var registryFetches: nat

    /** The tables, as a value. */
    ghost function Contents(): Tables
      reads this
    {
      Tables(patterns, nativeOpSpecificPatternMap, nativeOpSpecificPatternList, nativeAnyOpPatterns, registryFetches)
    }

    /** Every operation with a map entry has at least one pattern in it. */
    ghost predicate NoEmptyBucket()
      reads this
    {
      NonEmptyBuckets(nativeOpSpecificPatternMap)
    }

    /** `FrozenRewritePatternSet()`: an empty set. */
    constructor Empty()
      ensures Contents() == EmptyTables([])
    {
      patterns := [];
      nativeOpSpecificPatternMap := map[];
      nativeOpSpecificPatternList := [];
      nativeAnyOpPatterns := [];
      registryFetches := 0;
    }

    /** `FrozenRewritePatternSet(patterns, disabledPatternLabels, enabledPatternLabels)`. */
    constructor (pats: seq<RewritePattern>, registry: Registry,
                 disabledPatternLabels: seq<string>, enabledPatternLabels: seq<string>)
      requires NoDuplicates(registry.registeredOperations)
      ensures var inp := Input(pats, registry, set l | l in disabledPatternLabels, set l | l in enabledPatternLabels);
        && patterns == pats
        && nativeOpSpecificPatternList == Selected(inp, OwnedBy(OpSpecificOwner), |pats|)
        && nativeAnyOpPatterns == Selected(inp, OwnedBy(AnyOpOwner), |pats|)
        && (forall op :: Bucket(nativeOpSpecificPatternMap, op) == Selected(inp, BucketOf(op), |pats|))
        && registryFetches == Fetches(inp, |pats|)
      ensures NoEmptyBucket()
    {
      patterns := pats;
      nativeOpSpecificPatternMap := map[];
      nativeOpSpecificPatternList := [];
      nativeAnyOpPatterns := [];
      registryFetches := 0;
      new;
      var disabledPatterns := set l | l in disabledPatternLabels;
      var enabledPatterns := set l | l in enabledPatternLabels;
      var inp := Input(pats, registry, disabledPatterns, enabledPatterns);
      var opInfos := FileAll(inp);
      FiledTablesAreSelected(inp, |pats|);
    }

    /** The constructor's loop over the patterns, with the registered operations cached in opInfos. */
    method FileAll(inp: Input) returns (opInfos: seq<OperationName>)
      requires Contents() == EmptyTables(inp.patterns)
      modifies this
      ensures (Contents(), opInfos) == FiledTables(inp, |inp.patterns|)
    {
      opInfos := [];
      var k := 0;
      while k < |inp.patterns|
        invariant k <= |inp.patterns|
        invariant (Contents(), opInfos) == FiledTables(inp, k)
      {
        opInfos := FilePattern(inp, k, opInfos);
        k := k + 1;
      }
    }

    /** One iteration of the constructor's loop: filter pattern k, then file it. */
    method FilePattern(inp: Input, k: nat, opInfos: seq<OperationName>) returns (opInfos': seq<OperationName>)
      requires k < |inp.patterns|
      modifies this
      ensures (Contents(), opInfos') == FileStep(inp, k, old(Contents()), opInfos)
    {
      opInfos' := opInfos;
      var pat := inp.patterns[k];
      // Don't add patterns that haven't been enabled.
      if |inp.enabled| != 0 {
        if !(pat.debugName in inp.enabled) && !AnyIn(pat.debugLabels, inp.enabled) {
          return;
        }
      }
      // Don't add patterns that have been disabled.
      if |inp.disabled| != 0 {
        if pat.debugName in inp.disabled || AnyIn(pat.debugLabels, inp.disabled) {
          return;
        }
      }
      if pat.rootKind.Some? {
        var root := pat.rootKind.value;
        nativeOpSpecificPatternMap := nativeOpSpecificPatternMap[root := Bucket(nativeOpSpecificPatternMap, root) + [k]];
        nativeOpSpecificPatternList := nativeOpSpecificPatternList + [k];
      } else if pat.rootInterfaceID.Some? {
        opInfos' := AddToOpsWhen(inp.registry, k, HasInterface(pat.rootInterfaceID.value), opInfos);
      } else if pat.rootTraitID.Some? {
        opInfos' := AddToOpsWhen(inp.registry, k, HasTrait(pat.rootTraitID.value), opInfos);
      } else {
        nativeAnyOpPatterns := nativeAnyOpPatterns + [k];
      }
    }

    /**
     * The `addToOpsWhen` lambda: reads the registered operations if none are
     * cached yet, appends pattern k to the bucket of every cached operation
     * satisfying pred, and appends it once to the op-specific list.
     */
    method AddToOpsWhen(reg: Registry, k: nat, pred: RootPredicate, opInfos: seq<OperationName>)
      returns (opInfos': seq<OperationName>)
      modifies this
      ensures opInfos' == if |opInfos| == 0 then reg.registeredOperations else opInfos
      ensures Contents() == old(Contents()).(
                opSpecificMap := AppendAll(old(nativeOpSpecificPatternMap), reg, opInfos', k, pred),
                opSpecificList := old(nativeOpSpecificPatternList) + [k],
                fetches := if |opInfos| == 0 then old(registryFetches) + 1 else old(registryFetches))
    {
      opInfos' := opInfos;
      if |opInfos'| == 0 {
        opInfos' := reg.registeredOperations;
        registryFetches := registryFetches + 1;
      }
      AppendToBuckets(reg, opInfos', k, pred);
      nativeOpSpecificPatternList := nativeOpSpecificPatternList + [k];
    }

    /** The loop of addToOpsWhen: pattern k joins the bucket of each listed operation satisfying pred. */
    method AppendToBuckets(reg: Registry, ops: seq<OperationName>, k: nat, pred: RootPredicate)
      modifies this`nativeOpSpecificPatternMap
      ensures nativeOpSpecificPatternMap == AppendAll(old(nativeOpSpecificPatternMap), reg, ops, k, pred)
    {
      var j := 0;
      while j < |ops|
        invariant 0 <= j <= |ops|
        invariant nativeOpSpecificPatternMap == AppendAll(old(nativeOpSpecificPatternMap), reg, ops[..j], k, pred)
      {
        assert ops[..j + 1][..j] == ops[..j];
        var info := ops[j];
        if Holds(reg, info, pred) {
          nativeOpSpecificPatternMap := nativeOpSpecificPatternMap[info := Bucket(nativeOpSpecificPatternMap, info) + [k]];
        }
        j := j + 1;
      }
      assert ops[..j] == ops;
    }
  }

  /** `llvm::any_of(labels, isInFn)`. */
  function AnyIn(labels: seq<string>, set_: set<string>): (r: bool)
    ensures r <==> exists i :: 0 <= i < |labels| && labels[i] in set_
  {
    if labels == [] then false
    else labels[0] in set_ || (assert forall i :: 0 < i < |labels| ==> labels[i] == labels[1..][i - 1]; AnyIn(labels[1..], set_))
  }
}
