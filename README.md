# Verified model of three LLVM/MLIR components

This project models three parts of the LLVM/MLIR repository in Dafny and
proves properties of the models.

1. **The declarative assembly format checker of `mlir-tblgen`** (the
   `OpFormatParser` and parts of `OperationFormat` in `OpFormatGen.cpp`).
   It covers the following:
   - the binding state the parser keeps while it reads a format;
   - the whole-format checks of `verify`, including the two ambiguity
     scans and the legality of optional groups, oilists and custom
     directives;
   - the trait-derived type resolvers and the table of buildable types;
   - the spacing machine of the printer generator;
   - the list of segment sizes the generated parser records.
2. **`DecoderUInt128`** (`AMDGPUDisassembler.h`). This is the 128-bit word
   of the generated AMDGPU decoder: two unsigned 64-bit halves with
   bit-field extraction, `&`, `~` and the comparisons.
3. **The constructor of `FrozenRewritePatternSet`**. It filters native
   rewrite patterns by the enabled and disabled label lists. It then files
   each surviving pattern under the operations it can match: its root
   kind, or every registered operation with its root interface or trait,
   or the any-op list.

Modules and files:

| file | module | what |
|---|---|---|
| `wrappers.dfy` | `Wrappers` | `Option`, `Result`, `Outcome` |
| `op_schema.dfy` | `OpSchema` | the operator's named arguments and traits |
| `format_elements.dfy` | `FormatElements` | format elements, contexts, diagnostics, `collect` |
| `format_ambiguity.dfy` | `FormatAmbiguity` | `checkRangeForElement`, `verifyAdjacentElements` and its two uses |
| `format_groups.dfy` | `FormatGroups` | optional group, oilist and custom directive legality |
| `format_binding.dfy` | `FormatBinding` | the parser's binding state and every parse step, as functions |
| `buildable_pool.dfy` | `BuildablePool` | the buildable-type `MapVector` |
| `format_resolution.dfy` | `FormatResolution` | `findSeenArg`, the `handle*` resolvers and the trait loop |
| `format_verify.dfy` | `FormatVerify` | `verifyOperands`, `verifyResults`, `verifyRegions`, `verifySuccessors`, inferred attributes |
| `format_parser.dfy` | `FormatParser` | the `OperationFormat` and `OpFormatParser` classes and `verify` |
| `format_printer.dfy` | `FormatPrinter` | `genLiteralPrinter`, `genSpacePrinter`, `genElementPrinter` spacing |
| `segment_sizes.dfy` | `SegmentSizes` | `genParserVariadicSegmentResolution` |
| `decoder_uint128.dfy` | `DecoderUInt128` | the 128-bit decoder word |
| `frozen_rewrite_pattern_set.dfy` | `FrozenPatterns` | the pattern set constructor |

How the model is organised:
- The parser's parse methods and `verify` are methods of a class.
  - Each parse method updates the fields the source updates.
  - Each is proved equal to a pure step function in `FormatBinding`.
  - The lemmas about parsing are stated over those step functions.
- The frozen pattern set is a class with its four tables as fields.
  - The constructor's loop is proved to leave exactly the tables that a
    per-pattern selection describes.
  - The properties of that selection are lemmas.
- `DecoderUInt128` is a datatype of two 64-bit values, kept as `nat`s
  below 2^64.
  - Shifts, `&`, `|` and `~` on 64 bits are written out, wrap-around
    included.
  - Every operator is proved against the 128-bit number the pair denotes.

Notes where the model follows the code rather than its comments or the
generator's documentation:
- `parseVariableImpl` probes a name among the attributes, properties,
  operands, regions, results and successors, in that order. A name found
  in an earlier list shadows the later lists.
- The `:` ambiguity check starts only at an attribute that has no type
  builder and that is qualified, or whose storage type is
  `::mlir::Attribute`.
- The trait resolvers write entries with `operator[]`. A later trait
  therefore overrides an earlier one for the same name
  (`LaterTraitWins`).
- `verify` checks, in order: `attr-dict`, the trait loop, the attribute
  scans, the results, the operands, the regions, the successors, and then
  the oilists. It reports only the first failure. The order is the code's.
  The two attribute scans, however, are built on the corrected
  `verifyAdjacentElements` loop (see "## Findings"), not on the loop as
  written, so `Verify` rejects some formats the generator accepts.

## Model

Paths are relative to the repository root. `OpFormatGen.cpp` is
`mlir/tools/mlir-tblgen/OpFormatGen.cpp` in this table.

| member | source | states |
|---|---|---|
| OpSchema.GetArgumentLengthKind | mlir/tools/mlir-tblgen/OpFormatGen.cpp:802-811 | optional is checked first, then variadic of variadic, then variadic; each kind holds exactly when its flag is the first set |
| OpSchema.SingleIffFixedLength | mlir/tools/mlir-tblgen/OpFormatGen.cpp:802-811 | the kind is `Single` iff the argument is not variable-length |
| OpSchema.FindArg | mlir/tools/mlir-tblgen/OpFormatGen.cpp:2697-2701 | `findArg` gives the first entry with the name; none iff no entry has it |
| FormatElements.GetUnitVariableParsingElement | mlir/tools/mlir-tblgen/OpFormatGen.cpp:257-264 | a clause yields its variable iff it has exactly one element, and that element is a unit attribute or property |
| FormatElements.VariablesAreVariables | mlir/tools/mlir-tblgen/OpFormatGen.cpp:2389-2412 | everything `collect` gathers is a variable; a variable collects exactly itself |
| FormatElements.Collect | mlir/tools/mlir-tblgen/OpFormatGen.cpp:2389-2412 | `collect` appends the variables of the element and keeps the earlier ones in place |
| FormatElements.CollectClauses | mlir/tools/mlir-tblgen/OpFormatGen.cpp:2407-2411 | the oilist case of `collect`: each clause's variables, in clause order |
| FormatElements.MarkQualified | mlir/tools/mlir-tblgen/OpFormatGen.cpp:3692-3703 | only an attribute variable or a `type` directive can be qualified, and it becomes qualified; anything else is an error |
| FormatAmbiguity.CheckRangeForElement | mlir/tools/mlir-tblgen/OpFormatGen.cpp:2948-2987 | a failure names an invalid element |
| FormatAmbiguity.CheckRangeCharacterised | mlir/tools/mlir-tblgen/OpFormatGen.cpp:2919-2987 | the scan fails iff some element fails no later than the first required element (an optional group's guard counts as required); it reaches the end iff no element fails or is required |
| FormatAmbiguity.VerifyAdjacentAsWritten | mlir/tools/mlir-tblgen/OpFormatGen.cpp:2989-3029 | the loop as written; a failure pairs a base with an invalid element, and an unverified result is a base |
| FormatAmbiguity.AsWrittenMissesAmbiguity | mlir/tools/mlir-tblgen/OpFormatGen.cpp:3016-3025 | a concrete format: the loop as written accepts it, because it returns at `$a` and never checks `$b` followed by a `:` literal; the corrected loop rejects it |
| FormatAmbiguity.VerifyAdjacentElements | mlir/tools/mlir-tblgen/OpFormatGen.cpp:2989-3029 | the corrected loop: a failure pairs a base with an invalid element |
| FormatAmbiguity.EveryBaseChecked | mlir/tools/mlir-tblgen/OpFormatGen.cpp:2989-3029 | with the corrected loop, every base whose following range fails the scan makes the format fail |
| FormatAmbiguity.FailureSurvivesPrefix | mlir/tools/mlir-tblgen/OpFormatGen.cpp:2993-3028 | a failure in the tail of a range is a failure of the range |
| FormatAmbiguity.CorrectedRefinesAsWritten | mlir/tools/mlir-tblgen/OpFormatGen.cpp:2989-3029 | the corrected loop rejects everything the loop as written rejects, and agrees with it wherever it accepts |
| FormatAmbiguity.VerifyAttributeColonType | mlir/tools/mlir-tblgen/OpFormatGen.cpp:3031-3056 | on the corrected loop `VerifyAdjacentElements`, not the loop as written that line 3055 calls: fails with a colon-after-attribute error exactly when some `:` literal may follow an attribute parsed by the generic attribute parser |
| FormatAmbiguity.VerifyAttrDictRegion | mlir/tools/mlir-tblgen/OpFormatGen.cpp:3058-3079 | on the corrected loop `VerifyAdjacentElements`, not the loop as written that line 3078 calls: fails with a region-after-dictionary error exactly when a region may follow some plain `attr-dict` |
| FormatGroups.VerifyOptionalGroupElement | mlir/tools/mlir-tblgen/OpFormatGen.cpp:3763-3845 | an accepted anchor attribute is optional or defaulted; an accepted anchor property is defaulted with an optional parser; an operand or result must be variable-length; a literal, space or group cannot anchor |
| FormatGroups.AnchorIsStricter | mlir/tools/mlir-tblgen/OpFormatGen.cpp:3763-3845 | an element accepted as anchor is also accepted as a plain member |
| FormatGroups.AcceptedAnchorIsOptionallyParsed | mlir/tools/mlir-tblgen/OpFormatGen.cpp:2919-2938 | an accepted attribute, property or operand anchor is optionally parsed |
| FormatGroups.CustomAnchorChildrenAll | mlir/tools/mlir-tblgen/OpFormatGen.cpp:3819-3830 | an anchoring custom directive is accepted iff every child other than a `ref` is accepted as an anchor |
| FormatGroups.VerifyOptionalGroupElements | mlir/tools/mlir-tblgen/OpFormatGen.cpp:3754-3761 | passes iff every element passes, checked as anchor exactly at the anchor index; otherwise the first failure's error |
| FormatGroups.VerifyOIListParsingElement | mlir/tools/mlir-tblgen/OpFormatGen.cpp:3623-3673 | passes iff every collected variable can be absent; a pass means no successor is collected; otherwise the first failure's error |
| FormatGroups.VerifyCustomDirectiveArguments | mlir/tools/mlir-tblgen/OpFormatGen.cpp:3487-3505 | passes iff every argument is a variable, a dictionary, or a `type` of an operand or result; otherwise the first bad argument's error |
| FormatGroups.VerifyOIListElements | mlir/tools/mlir-tblgen/OpFormatGen.cpp:3212-3247 | passes iff no element repeats a keyword of the run of oilists directly before it; otherwise the first collision |
| FormatGroups.LiteralSeparatesOILists | mlir/tools/mlir-tblgen/OpFormatGen.cpp:3233-3241 | a literal between two oilists clears the prohibited keywords |
| FormatGroups.AdjacentOIListsShareKeyword | mlir/tools/mlir-tblgen/OpFormatGen.cpp:3218-3232 | two adjacent oilists that share a keyword collide |
| FormatBinding.ParseVariable | mlir/tools/mlir-tblgen/OpFormatGen.cpp:3329-3414 | a failure, `ref` or `type` context leaves the binding state as it was |
| FormatBinding.ParseVariableProbeOrder | mlir/tools/mlir-tblgen/OpFormatGen.cpp:3329-3414 | the result concerns the first kind of argument that declares the name; an undeclared name is an unknown variable |
| FormatBinding.BindAttribute | mlir/tools/mlir-tblgen/OpFormatGen.cpp:3332-3345 | the attribute branch changes nothing on failure or outside a binding context |
| FormatBinding.BindProperty | mlir/tools/mlir-tblgen/OpFormatGen.cpp:3347-3361 | as for attributes |
| FormatBinding.BindOperand | mlir/tools/mlir-tblgen/OpFormatGen.cpp:3364-3373 | as for attributes; `operands` counts as bound |
| FormatBinding.BindRegion | mlir/tools/mlir-tblgen/OpFormatGen.cpp:3375-3388 | as for attributes; `regions` counts as bound |
| FormatBinding.BindResult | mlir/tools/mlir-tblgen/OpFormatGen.cpp:3390-3395 | a result never changes the state |
| FormatBinding.BindSuccessor | mlir/tools/mlir-tblgen/OpFormatGen.cpp:3397-3410 | as for regions |
| FormatBinding.VariableBoundOnce | mlir/tools/mlir-tblgen/OpFormatGen.cpp:3329-3414 | in a binding context, a non-result variable is accepted iff it is unbound, after which it is bound and a second use fails as already bound |
| FormatBinding.ReferenceNeedsBinding | mlir/tools/mlir-tblgen/OpFormatGen.cpp:3336-3339 | under `ref` a non-result variable is accepted iff it is bound, and the state is unchanged |
| FormatBinding.ResultOnlyInTypeDirective | mlir/tools/mlir-tblgen/OpFormatGen.cpp:3390-3395 | a result variable is accepted iff it is the child of `type` |
| FormatBinding.AllFormBlocksIndividual | mlir/tools/mlir-tblgen/OpFormatGen.cpp:3365-3378 | after `operands`, `regions` or `successors`, a variable of that kind fails as already bound |
| FormatBinding.ParseAttrDictDirective | mlir/tools/mlir-tblgen/OpFormatGen.cpp:3449-3468 | success gives the directive and records the dictionary; failure or `ref` changes nothing |
| FormatBinding.AttrDictOnce | mlir/tools/mlir-tblgen/OpFormatGen.cpp:3449-3468 | never inside `type`; under `ref` iff bound; elsewhere iff not yet bound, and then it is bound |
| FormatBinding.AttrDictAtMostOnce | mlir/tools/mlir-tblgen/OpFormatGen.cpp:3449-3468 | over any run of parse calls, `attr-dict` is bound at most once, and not at all when already bound |
| FormatBinding.ParsePropDictDirective | mlir/tools/mlir-tblgen/OpFormatGen.cpp:3471-3485 | accepted iff in a binding context and not yet used |
| FormatBinding.ParseOperandsDirective | mlir/tools/mlir-tblgen/OpFormatGen.cpp:3528-3540 | binds all operands iff none is bound singly and it is not yet used; under `ref` iff used |
| FormatBinding.ParseRegionsDirective | mlir/tools/mlir-tblgen/OpFormatGen.cpp:3543-3558 | as `operands`, and rejected inside `type` |
| FormatBinding.ParseResultsDirective | mlir/tools/mlir-tblgen/OpFormatGen.cpp:3561-3566 | accepted iff inside `type`; the state never changes |
| FormatBinding.ParseSuccessorsDirective | mlir/tools/mlir-tblgen/OpFormatGen.cpp:3569-3585 | as `regions` |
| FormatBinding.ParseTypeDirectiveOperand | mlir/tools/mlir-tblgen/OpFormatGen.cpp:3706-3752 | on success returns its element; on failure changes nothing |
| FormatBinding.TypeBoundOnce | mlir/tools/mlir-tblgen/OpFormatGen.cpp:3706-3752 | outside `ref` a type is accepted iff not yet bound (for the all-forms: and no single type of the kind is bound), and then is bound; under `ref` iff bound |
| FormatBinding.ParseTypeDirective | mlir/tools/mlir-tblgen/OpFormatGen.cpp:3675-3690 | rejected inside `type`; success wraps the operand |
| FormatBinding.ParseFunctionalTypeDirective | mlir/tools/mlir-tblgen/OpFormatGen.cpp:3508-3525 | top level only; a rejected results operand keeps the binding the inputs operand made |
| FormatBinding.ApplyGrows | mlir/tools/mlir-tblgen/OpFormatGen.cpp:2826-2834 | no parse call clears a flag or unbinds anything |
| FormatBinding.RunGrows | mlir/tools/mlir-tblgen/OpFormatGen.cpp:2826-2834 | over a run of parse calls the state only grows |
| FormatBinding.ApplyKeepsConsistent | mlir/tools/mlir-tblgen/OpFormatGen.cpp:3329-3752 | each parse call keeps the state consistent: no all-form beside a single binding of its kind, no duplicates, only the operator's arguments |
| FormatBinding.RunKeepsConsistent | mlir/tools/mlir-tblgen/OpFormatGen.cpp:3329-3752 | every run of parse calls keeps the state consistent |
| FormatBinding.InitialIsConsistent | mlir/tools/mlir-tblgen/OpFormatGen.cpp:2708-2711 | the fresh state is consistent |
| BuildablePool.Insert | mlir/tools/mlir-tblgen/OpFormatGen.cpp:3122 | `MapVector::insert`: a present call keeps the table; a new one goes last with index the old size |
| BuildablePool.InsertKeepsIndices | mlir/tools/mlir-tblgen/OpFormatGen.cpp:3122 | an insertion moves no existing entry |
| BuildablePool.InsertAllFirstUseOrder | mlir/tools/mlir-tblgen/OpFormatGen.cpp:3122 | the new entries are ordered by their first use among the calls |
| BuildablePool.InsertAllAddsOnlyNew | mlir/tools/mlir-tblgen/OpFormatGen.cpp:3122 | the new entries are calls that were not in the table before |
| BuildablePool.IndicesAreDense | mlir/tools/mlir-tblgen/OpFormatGen.cpp:3122-3123 | each position of the table holds one distinct call, so one index names one call |
| FormatResolution.FindSeenArg | mlir/tools/mlir-tblgen/OpFormatGen.cpp:3318-3326 | a result is a bound argument of that name; operands are searched first, then results, then attributes, and the search stops at the first kind declaring the name |
| FormatResolution.FindSeenArgStopsAtFirstKind | mlir/tools/mlir-tblgen/OpFormatGen.cpp:3318-3326 | an operand name with no bound type resolves to nothing, even when a result or attribute of that name is bound |
| FormatResolution.FindSeenArgFindsFirst | mlir/tools/mlir-tblgen/OpFormatGen.cpp:3318-3326 | a bound operand type is found by a name no earlier operand takes |
| FormatResolution.AllTypesMatchResolvesOthers | mlir/tools/mlir-tblgen/OpFormatGen.cpp:3249-3264 | with one value bound, `AllTypesMatch` gives every other listed value a resolver with no transformer |
| FormatResolution.AllTypesMatchOnlyListed | mlir/tools/mlir-tblgen/OpFormatGen.cpp:3249-3264 | `AllTypesMatch` records nothing for an unlisted name |
| FormatResolution.SameTypesResolvesUnbound | mlir/tools/mlir-tblgen/OpFormatGen.cpp:3266-3289 | every operand with an unbound type resolves to the first bound operand, or for `SameOperandsAndResultType` the first bound result |
| FormatResolution.SameTypesResolvesResults | mlir/tools/mlir-tblgen/OpFormatGen.cpp:3284-3288 | `SameOperandsAndResultType` also resolves every unbound result |
| FormatResolution.TypesMatchWithEntry | mlir/tools/mlir-tblgen/OpFormatGen.cpp:3291-3298 | `TypesMatchWith` records `rhs` alone, with the transformer, exactly when `lhs` is bound |
| FormatResolution.ShapedIsOneWay | mlir/tools/mlir-tblgen/OpFormatGen.cpp:3300-3316 | the element type is recovered from a bound shaped type, never the reverse |
| FormatResolution.LaterTraitWins | mlir/tools/mlir-tblgen/OpFormatGen.cpp:2846-2871 | the resolver map holds, for each name, the entry of the last trait that records one |
| FormatResolution.HandleAllTypesMatch | mlir/tools/mlir-tblgen/OpFormatGen.cpp:3249-3264 | the map after the handler, entry by entry |
| FormatResolution.HandleSameTypes | mlir/tools/mlir-tblgen/OpFormatGen.cpp:3266-3289 | the map after the handler, entry by entry |
| FormatResolution.HandleTypesMatch | mlir/tools/mlir-tblgen/OpFormatGen.cpp:3291-3298 | the map after the handler, entry by entry |
| FormatResolution.HandleShaped | mlir/tools/mlir-tblgen/OpFormatGen.cpp:3300-3316 | the map after the handler, entry by entry |
| FormatResolution.HandleTrait | mlir/tools/mlir-tblgen/OpFormatGen.cpp:2848-2870 | one trait's dispatch: the selected handler's entries override; the inference flag is set by `::mlir::InferTypeOpInterface` when some result type is unknown |
| FormatResolution.BuildResolvers | mlir/tools/mlir-tblgen/OpFormatGen.cpp:2845-2871 | the trait loop builds the resolver map that the traits define, and sets the inference flag iff some trait declares type inference |
| FormatVerify.OperandDecision | mlir/tools/mlir-tblgen/OpFormatGen.cpp:3086-3124 | an operand is missing iff not in the format; its type is bound, else resolved, else built; a variable-length operand under `operands` cannot be built |
| FormatVerify.ResultDecision | mlir/tools/mlir-tblgen/OpFormatGen.cpp:3146-3192 | a result's type is bound, else resolved, else built if fixed-length; it is never reported as missing |
| FormatVerify.VerifyOperands | mlir/tools/mlir-tblgen/OpFormatGen.cpp:3081-3126 | fails at the first failing operand with its error; otherwise records every decision, adding builder calls in first-use order |
| FormatVerify.VerifyResults | mlir/tools/mlir-tblgen/OpFormatGen.cpp:3146-3192 | nothing to do under `type(results)`; inference when no result type is bound and the operation infers; otherwise as `verifyOperands` |
| FormatVerify.EveryOperandTypeObtained | mlir/tools/mlir-tblgen/OpFormatGen.cpp:3098-3123 | after a success every operand type is bound in the format, has a resolver, or has a builder index naming its call |
| FormatVerify.SharedBuilderSharesIndex | mlir/tools/mlir-tblgen/OpFormatGen.cpp:3122-3123 | two arguments with the same builder get the same index |
| FormatVerify.BuildableTypesInFirstUseOrder | mlir/tools/mlir-tblgen/OpFormatGen.cpp:3122-3123 | the table keeps its entries and adds each call once, in first-use order |
| FormatVerify.VerifyRegions | mlir/tools/mlir-tblgen/OpFormatGen.cpp:3128-3144 | passes iff `regions` is used or every region is bound; otherwise names the first missing one |
| FormatVerify.VerifySuccessors | mlir/tools/mlir-tblgen/OpFormatGen.cpp:3194-3210 | the same for successors |
| FormatVerify.CollectInferredAttributes | mlir/tools/mlir-tblgen/OpFormatGen.cpp:2909-2915 | adds the group-size attribute of every bound variadic-of-variadic operand |
| FormatVerify.NothingInferredUnderOperands | mlir/tools/mlir-tblgen/OpFormatGen.cpp:2909-2915 | under `operands` no operand is bound singly, so nothing is inferred |
| FormatParser.OperationFormat.constructor | mlir/tools/mlir-tblgen/OpFormatGen.cpp:347-357 | one unresolved entry per operand and result; no flags and empty tables |
| FormatParser.OpFormatParser.constructor | mlir/tools/mlir-tblgen/OpFormatGen.cpp:2708-2711 | the initial binding state, with the format's all-forms |
| FormatParser.OpFormatParser.ParseVariableImpl | mlir/tools/mlir-tblgen/OpFormatGen.cpp:3329-3414 | result and new state are those of `FormatBinding.ParseVariable`, and the state stays valid |
| FormatParser.OpFormatParser.ParseAttrDict | mlir/tools/mlir-tblgen/OpFormatGen.cpp:3449-3468 | the same, for `ParseAttrDictDirective` |
| FormatParser.OpFormatParser.ParsePropDict | mlir/tools/mlir-tblgen/OpFormatGen.cpp:3471-3485 | the same, for `ParsePropDictDirective` |
| FormatParser.OpFormatParser.ParseOperands | mlir/tools/mlir-tblgen/OpFormatGen.cpp:3528-3540 | the same, for `ParseOperandsDirective` |
| FormatParser.OpFormatParser.ParseRegions | mlir/tools/mlir-tblgen/OpFormatGen.cpp:3543-3558 | the same, for `ParseRegionsDirective` |
| FormatParser.OpFormatParser.ParseResults | mlir/tools/mlir-tblgen/OpFormatGen.cpp:3561-3566 | accepted iff inside `type` |
| FormatParser.OpFormatParser.ParseSuccessors | mlir/tools/mlir-tblgen/OpFormatGen.cpp:3569-3585 | the same, for `ParseSuccessorsDirective` |
| FormatParser.OpFormatParser.ParseTypeOperand | mlir/tools/mlir-tblgen/OpFormatGen.cpp:3706-3752 | the same, for `ParseTypeDirectiveOperand` |
| FormatParser.OpFormatParser.ParseType | mlir/tools/mlir-tblgen/OpFormatGen.cpp:3675-3690 | the same, for `ParseTypeDirective` |
| FormatParser.OpFormatParser.ParseFunctionalType | mlir/tools/mlir-tblgen/OpFormatGen.cpp:3508-3525 | the same, for `ParseFunctionalTypeDirective` |
| FormatParser.OpFormatParser.VerifyAttributes | mlir/tools/mlir-tblgen/OpFormatGen.cpp:2891-2917 | the colon scan, then the region scan, both on the corrected loop, decide the outcome; on a pass the group sizes of bound operands are inferred |
| FormatParser.OpFormatParser.Verify | mlir/tools/mlir-tblgen/OpFormatGen.cpp:2838-2889 | accepts iff no check fails, else reports the first failing check's error, with the attribute scans on the corrected loop; a success records exactly the verified value |
| FormatParser.CheckTypes | mlir/tools/mlir-tblgen/OpFormatGen.cpp:2874-2875 | results then operands: passes iff neither fails, reports the first failure, and records both on success |
| FormatParser.TypesInOrder | mlir/tools/mlir-tblgen/OpFormatGen.cpp:2873-2877 | chaining the two checks gives the first failing decision's error, and both records on success |
| FormatParser.ResultDecisionsCannotMiss | mlir/tools/mlir-tblgen/OpFormatGen.cpp:3146-3192 | no result is reported missing |
| FormatParser.RejectedWithoutAttrDict | mlir/tools/mlir-tblgen/OpFormatGen.cpp:2840-2843 | without `attr-dict` the format is rejected before any other check |
| FormatParser.RecordedIsVerifiedValue | mlir/tools/mlir-tblgen/OpFormatGen.cpp:2880-2888 | the type records, the inferred attributes and the copied uses make up the verified value |
| FormatParser.VerifyCoverage | mlir/tools/mlir-tblgen/OpFormatGen.cpp:2876-2877 | regions, then successors, then oilists: passes iff none fails, else the first failure's error |
| FormatPrinter.GenLiteralPrinter | mlir/tools/mlir-tblgen/OpFormatGen.cpp:2148-2161 | a space first iff one is due and allowed; then a space is due unless the literal is a single opening bracket; punctuation iff it starts with neither `_` nor a letter |
| FormatPrinter.GenSpacePrinter | mlir/tools/mlir-tblgen/OpFormatGen.cpp:2165-2174 | a non-empty space prints a space; both kinds clear the due space; only the empty one counts as punctuation |
| FormatPrinter.GenElementPrinter | mlir/tools/mlir-tblgen/OpFormatGen.cpp:2414-2554 | the actions and flags are those of the element's printing step |
| FormatPrinter.GenPrinter | mlir/tools/mlir-tblgen/OpFormatGen.cpp:2678-2689 | the actions of the element printers in turn, starting with a space due and no punctuation |
| FormatPrinter.PrintedThenElements | mlir/tools/mlir-tblgen/OpFormatGen.cpp:2445-2462 | a unit anchor in the then-branch that does not start a branch is dropped from it; otherwise the then-branch is printed whole |
| FormatPrinter.PrintedElseElements | mlir/tools/mlir-tblgen/OpFormatGen.cpp:2445-2473 | a unit anchor in the else-branch of an inverted group that does not start a branch is dropped from it; otherwise the else-branch is printed whole |
| FormatPrinter.ElidedAnchorDroppedOnce | mlir/tools/mlir-tblgen/OpFormatGen.cpp:2445-2473 | the two printed branches together lose exactly the elided anchor, once, and nothing else; without elision both are printed whole |
| FormatPrinter.SpaceBeforeElement | mlir/tools/mlir-tblgen/OpFormatGen.cpp:2549-2554 | whatever came before, a variable after a flat element gets a space iff the element is not an opening bracket or an empty space |
| FormatPrinter.SpaceBeforeLiteral | mlir/tools/mlir-tblgen/OpFormatGen.cpp:2148-2161 | whatever came before, the space before a literal depends only on the previous flat element and `shouldEmitSpaceBefore` |
| FormatPrinter.NewlineIsTransparent | mlir/tools/mlir-tblgen/OpFormatGen.cpp:2423-2430 | a `\n` element prints a newline and otherwise changes nothing |
| FormatPrinter.SpaceAfterDictionary | mlir/tools/mlir-tblgen/OpFormatGen.cpp:2534-2546 | dictionaries print no leading space, keep the due space, and are followed by a space before a variable |
| FormatPrinter.FirstElementIsSpaced | mlir/tools/mlir-tblgen/OpFormatGen.cpp:2686-2688 | a format that starts with a variable or directive prints a space first |
| FormatPrinter.GroupFlagsFollowBothBranches | mlir/tools/mlir-tblgen/OpFormatGen.cpp:2464-2473 | the flags after a group are those after its printed then-branch followed by its printed else-branch |
| FormatPrinter.UnitClausePrintsKeywordOnly | mlir/tools/mlir-tblgen/OpFormatGen.cpp:2523-2529 | a clause that is a lone unit variable prints only its keyword |
| SegmentSizes.GenSizes | mlir/tools/mlir-tblgen/OpFormatGen.cpp:1904-1923 | one entry per operand in order: the parsed size for a variable-length one, else 1 |
| SegmentSizes.GenGroupSizes | mlir/tools/mlir-tblgen/OpFormatGen.cpp:1925-1943 | the group-size records of the variadic-of-variadic operands, in order |
| SegmentSizes.GenParserVariadicSegmentResolution | mlir/tools/mlir-tblgen/OpFormatGen.cpp:1900-1969 | unless `operands` is used, the operand sizes (with `AttrSizedOperandSegments`) and then the group sizes; unless `type(results)` is used, the result sizes (with `AttrSizedResultSegments`); stored as properties or attributes |
| SegmentSizes.FixedOneIffSingle | mlir/tools/mlir-tblgen/OpFormatGen.cpp:802-811 | an entry is 1 iff the length kind is `Single`; otherwise it is the parsed size |
| SegmentSizes.SizesRecordCounts | mlir/tools/mlir-tblgen/OpFormatGen.cpp:1900-1969 | read with the parsed counts, with one value parsed per fixed-length operand, the sizes are exactly the counts |
| SegmentSizes.GroupSizesInOrder | mlir/tools/mlir-tblgen/OpFormatGen.cpp:1900-1969 | the group-size records name exactly the variadic-of-variadic operands, in declaration order |
| SegmentSizes.GroupSizesMembers | mlir/tools/mlir-tblgen/OpFormatGen.cpp:1900-1969 | a record is present iff some variadic-of-variadic operand gives it |
| DecoderUInt128.Default | llvm/lib/Target/AMDGPU/Disassembler/AMDGPUDisassembler.h:39-43 | the default value is 0 |
| DecoderUInt128.Make | llvm/lib/Target/AMDGPU/Disassembler/AMDGPUDisassembler.h:44 | the value is `Hi * 2^64 + Lo`, with `Hi` 0 by default |
| DecoderUInt128.ToBool | llvm/lib/Target/AMDGPU/Disassembler/AMDGPUDisassembler.h:45 | true iff the 128-bit value is not 0 |
| DecoderUInt128.ExtractBitsAsZExtValue | llvm/lib/Target/AMDGPU/Disassembler/AMDGPUDisassembler.h:46-56 | with `1 <= NumBits <= 64` and `BitPosition < 128`, the result fits in `NumBits` bits |
| DecoderUInt128.MaskIsLowBits | llvm/lib/Target/AMDGPU/Disassembler/AMDGPUDisassembler.h:55 | `(2 << (NumBits - 1)) - 1` is `2^NumBits - 1`, also for 64 bits where the shift wraps |
| DecoderUInt128.ExtractLowPosition | llvm/lib/Target/AMDGPU/Disassembler/AMDGPUDisassembler.h:51-52 | below position 64 the result is the field of the 128-bit value at that position |
| DecoderUInt128.ExtractHighPosition | llvm/lib/Target/AMDGPU/Disassembler/AMDGPUDisassembler.h:53-54 | from position 64 on the result is the field of `Hi`, which is the field of the 128-bit value |
| DecoderUInt128.ExtractIsField | llvm/lib/Target/AMDGPU/Disassembler/AMDGPUDisassembler.h:46-56 | the result is `(value / 2^BitPosition) % 2^NumBits` at every position |
| DecoderUInt128.AndWith | llvm/lib/Target/AMDGPU/Disassembler/AMDGPUDisassembler.h:57-59 | the halves are the bitwise and of the halves |
| DecoderUInt128.AndIs128BitAnd | llvm/lib/Target/AMDGPU/Disassembler/AMDGPUDisassembler.h:57-59 | the value is the 128-bit bitwise and of the two values |
| DecoderUInt128.AndWithU64 | llvm/lib/Target/AMDGPU/Disassembler/AMDGPUDisassembler.h:60-62 | and with a 64-bit value clears `Hi` and ands `Lo` |
| DecoderUInt128.Complement | llvm/lib/Target/AMDGPU/Disassembler/AMDGPUDisassembler.h:63 | the value is `2^128 - 1 - value` |
| DecoderUInt128.ComplementInvolutive | llvm/lib/Target/AMDGPU/Disassembler/AMDGPUDisassembler.h:63 | `~~x == x` |
| DecoderUInt128.AndComplementIsFalse | llvm/lib/Target/AMDGPU/Disassembler/AMDGPUDisassembler.h:45-63 | `x & ~x` converts to false |
| DecoderUInt128.Equal | llvm/lib/Target/AMDGPU/Disassembler/AMDGPUDisassembler.h:64-66 | equal halves iff equal 128-bit values |
| DecoderUInt128.NotEqual | llvm/lib/Target/AMDGPU/Disassembler/AMDGPUDisassembler.h:67-69 | the negation of `==` |
| DecoderUInt128.U64OfInt | llvm/lib/Target/AMDGPU/Disassembler/AMDGPUDisassembler.h:70 | the `int` to `uint64_t` conversion is the value modulo 2^64 |
| DecoderUInt128.NotEqualInt | llvm/lib/Target/AMDGPU/Disassembler/AMDGPUDisassembler.h:70 | differs iff `Lo` differs from the converted `int` or `Hi` is not 0 |
| DecoderUInt128.NotEqualZeroIsTruth | llvm/lib/Target/AMDGPU/Disassembler/AMDGPUDisassembler.h:45-70 | `x != 0` is the conversion to `bool` |
| FrozenPatterns.AnyIn | mlir/lib/Rewrite/FrozenRewritePatternSet.cpp:91-101 | `any_of` over the labels: true iff some label is in the set |
| FrozenPatterns.SelectedMembers | mlir/lib/Rewrite/FrozenRewritePatternSet.cpp:85-123 | each family holds exactly the selected pattern indices |
| FrozenPatterns.SelectedIncreasing | mlir/lib/Rewrite/FrozenRewritePatternSet.cpp:85-123 | each list and bucket keeps the input order, without repeats |
| FrozenPatterns.ExactlyOneOwner | mlir/lib/Rewrite/FrozenRewritePatternSet.cpp:85-123 | a surviving pattern is owned by exactly one list; a dropped one by none and is in no bucket |
| FrozenPatterns.FiledPatternsAreEnabled | mlir/lib/Rewrite/FrozenRewritePatternSet.cpp:87-94 | with an enabled list, every filed pattern's name or a label is enabled |
| FrozenPatterns.DisabledWins | mlir/lib/Rewrite/FrozenRewritePatternSet.cpp:96-103 | a disabled name or label drops the pattern, even when it is also enabled |
| FrozenPatterns.RootKindFirst | mlir/lib/Rewrite/FrozenRewritePatternSet.cpp:105-109 | a root-kind pattern is in its root's bucket only, whatever interface or trait it has |
| FrozenPatterns.InterfaceBeforeTrait | mlir/lib/Rewrite/FrozenRewritePatternSet.cpp:110-121 | an interface-rooted pattern is in exactly the buckets of registered operations with the interface, its trait ignored |
| FrozenPatterns.AnyOpInNoBucket | mlir/lib/Rewrite/FrozenRewritePatternSet.cpp:122 | an any-op pattern is in no bucket |
| FrozenPatterns.BucketsAreOpSpecific | mlir/lib/Rewrite/FrozenRewritePatternSet.cpp:81-82 | every bucket entry is owned by the op-specific list |
| FrozenPatterns.FetchedAtMostOnce | mlir/lib/Rewrite/FrozenRewritePatternSet.cpp:77-78 | with registered operations, the registry is read once iff some pattern uses it, and never twice |
| FrozenPatterns.AppendAllBuckets | mlir/lib/Rewrite/FrozenRewritePatternSet.cpp:79-81 | the loop of `addToOpsWhen` adds the pattern to each listed operation that satisfies the predicate, and to no other bucket |
| FrozenPatterns.FileStepKeepsFiled | mlir/lib/Rewrite/FrozenRewritePatternSet.cpp:85-123 | each loop iteration keeps the tables equal to the selection of the patterns seen so far |
| FrozenPatterns.FiledTablesAreSelected | mlir/lib/Rewrite/FrozenRewritePatternSet.cpp:85-123 | after k iterations the tables are the selection of the first k patterns |
| FrozenPatterns.FrozenRewritePatternSet.Empty | mlir/lib/Rewrite/FrozenRewritePatternSet.cpp:59-60 | the empty set has no patterns and empty tables |
| FrozenPatterns.FrozenRewritePatternSet.constructor | mlir/lib/Rewrite/FrozenRewritePatternSet.cpp:62-123 | the two lists and every bucket are exactly the selected patterns, in input order; no bucket is empty; the registry is read as `Fetches` says |
| FrozenPatterns.FrozenRewritePatternSet.FileAll | mlir/lib/Rewrite/FrozenRewritePatternSet.cpp:85-123 | the loop leaves the tables and the cache that the whole input defines |
| FrozenPatterns.FrozenRewritePatternSet.FilePattern | mlir/lib/Rewrite/FrozenRewritePatternSet.cpp:86-122 | one iteration is the step function on the tables |
| FrozenPatterns.FrozenRewritePatternSet.AddToOpsWhen | mlir/lib/Rewrite/FrozenRewritePatternSet.cpp:74-83 | fetches the registered operations when none are cached, appends to the matching buckets, then once to the op-specific list |
| FrozenPatterns.FrozenRewritePatternSet.AppendToBuckets | mlir/lib/Rewrite/FrozenRewritePatternSet.cpp:79-81 | the map is the one `AppendAll` defines |

## Left out

- The `FormatParser` base class (the format lexer, `parseElement`, and the parsing of `ref`, `custom`, `qualified`, optional groups and `oilist`) is not part of this model. The parse methods take the child elements already parsed.
- `shouldEmitSpaceBefore` is a function parameter of the printer model: its definition is not part of this model.
- The printer model emits abstract actions, not C++ text. This leaves out the text from `genOptionalGroupPrinterAnchor`, the dictionary printers, the oilist guard expressions and each variable's printer.
- Format literals are taken to be non-empty, as the format lexer guarantees; the literal printer reads their first character.
- Element identity (pointer equality) is modelled by position. An optional group's anchor is a branch and an index there; a group is inverted exactly when its anchor is in the else branch. The guard of a group is its first then-element.
- The state a failed `verify` leaves in the format is not specified. The source leaves it unspecified too, because generation stops.
- `OperationFormat.hasPropDict` is not initialised by the source constructor. The model gives it a value that `Verify` overwrites.
- The `OperationFormat` constructor's `hasImplicitTermTrait`, `hasSingleBlockTrait`, `useProperties` and class name are left out. They are read only by parser and printer generation code outside this model.
- `generateOpFormat`, `genParser`, and the rest of the C++ text generation are left out. So are the TableGen record queries; the model works on the flags and strings they return.
- Diagnostics are one error value per message. Source locations and the message text are left out.
- The PDL bytecode part of the `FrozenRewritePatternSet` constructor (under `MLIR_ENABLE_PDL_IN_PATTERNMATCH`) is left out. So are the moving of `unique_ptr`s and the reference-counted `Impl`. Patterns are identified by their index in the input list.
- `FrozenPatterns.FrozenRewritePatternSet.constructor`: the context's registered operations and their interfaces and traits are a parameter, given as a value. They are taken to list each operation once, as the context does.
- The trait resolvers are modelled for the trait kinds the loop distinguishes. Each trait record is reduced to those kinds.
- FormatAmbiguity.VerifyAttributeColonType: runs on the corrected loop, not the loop as written, so it rejects formats such as `` $a ($b^ `:` `x`)? attr-dict `` that the generator accepts (see "## Findings").
- FormatAmbiguity.VerifyAttrDictRegion: runs on the corrected loop, not the loop as written, so in a range with more than one `attr-dict` base it also checks the bases after the first one whose scan reaches the end, which the generator skips.
- FormatParser.OpFormatParser.VerifyAttributes: uses the two scans above, so it fails on some formats the generator accepts.
- FormatParser.OpFormatParser.Verify: its first-failure contract is stated through `FailingStage`, which uses the corrected scans, so `Verify` rejects some formats the generator's `verify` accepts.
- FormatBinding.ParsePropDictDirective: a `prop-dict` inside `ref` makes the generator abort with `report_fatal_error`; the model returns an ordinary failure (`PropDictRefUnsupported`) instead, like a diagnostic. `FormatParser.OpFormatParser.ParsePropDict` does the same.
- DecoderUInt128.ExtractBitsAsZExtValue: the `assert`s (`NumBits` in 1..64, `BitPosition < 128`) are preconditions. Behaviour outside them is left out.

## Findings

| source | as written | input that shows it | evidently intended | confidence | as-written member | corrected member |
|---|---|---|---|---|---|---|
| mlir/tools/mlir-tblgen/OpFormatGen.cpp:3016-3025 | When the scan after a base reaches the end of the range, `verifyAdjacentElements` returns that base at once. The bases after it in the same range are never checked. | The format `` $a ($b^ `:` `x`)? attr-dict ``. Here `$a` and `$b` are optional attributes read by the generic attribute parser. The scan after `$a` skips the group and `attr-dict` and reaches the end. So the format is accepted, although `$b` is followed by `:`. Without `$a` the same group is rejected. | Remember the unverified base and go on with the next element. Every base is then checked, and the format above is rejected. | medium, not executed | FormatAmbiguity.VerifyAdjacentAsWritten, FormatAmbiguity.AsWrittenMissesAmbiguity | FormatAmbiguity.VerifyAdjacentElements, FormatAmbiguity.EveryBaseChecked |
