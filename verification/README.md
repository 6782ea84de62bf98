# CST shape analysis and lexer definition analysis

This project models two static analyses of a TypeScript parsing toolkit and
proves what they compute.

**CST shape analysis** (`src/parse/cst/cst.ts`).
- For each grammar rule, `buildIsCollection` decides which Terminal and
  NonTerminal keys of the concrete syntax tree node hold a single child
  (`NONE`) and which hold a list (`COLLECTION`).
- It first seeds every key of the definition with `NONE`. It then walks the
  derivation paths with an explicit work stack, counting the keys each path
  consumes.
- The model (`CstModel`, `Cst`) keeps the stack as a `seq<WorkItem>` and the
  result as a `map<string, Subtype>`. The method is proved equal to a
  recursive specification, `IsCollectionSpec`.
- That specification is in turn characterised by paths: a key is
  `COLLECTION` exactly when some explored path consumes it twice.
- The children dictionary helpers are modelled as updates of a `CstNode`
  object's `childrenDictionary` field.

**Lexer definition analysis** (`src/scan/lexer.ts`).
- Token classes are values: a name, a PATTERN, a GROUP, a LONGER_ALT, PUSH_MODE and POP_MODE, and the lazy and simple flags. Regular expressions are opaque records: source text plus the `i`, `m` and `g` flags.
- `analyzeTokenClasses` and the table part of `analyzeTokenClassesForStreamingLexer` are modelled (`Lexer`). So are the start-of-input wrapping, the line-terminator count and the cloning of empty groups.
- The pattern validation pipeline and its filters are modelled, including the duplicate-pattern equivalence sets (`DuplicatePatterns`). So are the multi-mode definition checks and the lazy and simple homogeneity checks (`LexerValidation`).

Modules:
- `Base`: Option, Result, Token.
- `CstModel`: productions and the specification functions of the CST analysis.
- `Cst`: the visitor class, the worklist method, the top-rule table, the CST node helpers.
- `LexerModel`: token classes, patterns, groups, errors.
- `Lexer`: the analysis tables, `addStartOfInput`, `countLineTerminators`, `cloneEmptyGroups`.
- `DuplicatePatterns`: `findDuplicatePatterns` as a specification.
- `LexerValidation`: the checks and their pipeline.

Two choices shape the CST model.
- The `EXIT_ITERATION` marker pushed by the repetition branches is dropped when popped, like a path with an empty definition.
- Only the last flag of the function's own `inIteration` argument is read. The flags a path carries are extended but never read, as in the source.

## Model

| member | source | states |
|---|---|---|
| Cst.IsCollectionInitVisitor.VisitTerminal | src/parse/cst/cst.ts:59-62 | the terminal's name is put with NONE; every other entry is kept |
| Cst.IsCollectionInitVisitor.VisitNonTerminal | src/parse/cst/cst.ts:54-57 | the non-terminal's name is put with NONE; every other entry is kept |
| Cst.IsCollectionInitVisitor.Visit | src/parse/cst/cst.ts:45-63 | visiting a production adds NONE for exactly the keys reachable in it (separators excluded) |
| Cst.IsCollectionInitVisitor.VisitDefinition | src/parse/cst/cst.ts:67-71 | the seeding step puts NONE for exactly the keys of the definition and nothing else |
| Cst.PushAlternatives | src/parse/cst/cst.ts:173-184 | one path per alternative is pushed, the last alternative first, so the first alternative is on top of the stack |
| Cst.PushIteration | src/parse/cst/cst.ts:146-157 | a repetition pushes the path through its body with the argument's iteration flags extended by true, then the EXIT_ITERATION marker; the marks still to be found grow by exactly the body-then-rest exploration |
| Cst.ExpandBody | src/parse/cst/cst.ts:137-144 | an Option or Flat continues with its body followed by the rest; the pending marks grow by exactly the specification's exploration of that state |
| Cst.ExpandAlternation | src/parse/cst/cst.ts:173-184 | the alternation's pending marks are the union over its alternatives, and the stack's cost strictly decreases |
| Cst.ExpandRepetition | src/parse/cst/cst.ts:146-172 | the four repetition kinds push their body; a separator repetition is explored as Repetition([Terminal(sep)] + body) |
| Cst.ConsumeKey | src/parse/cst/cst.ts:99-136 | a consumed key is counted on its path and becomes COLLECTION when its count exceeds 1 or the argument's last iteration flag is set; no mark is removed |
| Cst.ExpandPath | src/parse/cst/cst.ts:73-195 | one loop turn keeps result equal to the seeded keys with the marked ones as COLLECTION; a key once COLLECTION stays COLLECTION; the stack's cost decreases |
| Cst.BuildIsCollection | src/parse/cst/cst.ts:65-197 | the worklist method returns exactly IsCollectionSpec(initialDef, inIteration) |
| CstModel.ResultKeys | src/parse/cst/cst.ts:67-71 | every key of the definition is in the result; the only other keys are separators, which are COLLECTION; OPTIONAL never appears |
| CstModel.ExploreIsPathWitness | src/parse/cst/cst.ts:73-195 | a key is marked by the exploration exactly when some explored path consumes it twice, or once under a set iteration flag |
| CstModel.ExploreAltsIsPathWitness | src/parse/cst/cst.ts:173-184 | the same characterisation for the paths through an alternation |
| CstModel.ExploreKeyIsPathWitness | src/parse/cst/cst.ts:99-136 | the same characterisation for a path that starts with a Terminal or NonTerminal |
| CstModel.ExploreWithinKeys | src/parse/cst/cst.ts:99-136 | only keys of the definition, separators included, are ever marked |
| CstModel.CollectionIffTwiceOnAPath | src/parse/cst/cst.ts:100-108 | with no iteration flag set, a key is COLLECTION exactly when some explored path consumes it at least twice |
| CstModel.AtMostOncePerPathIsNone | src/parse/cst/cst.ts:101-108 | a key consumed at most once on every explored path stays NONE under the default empty inIteration |
| CstModel.InIterationMarksEveryConsumedKey | src/parse/cst/cst.ts:107 | when the argument's last iteration flag is set, every key consumed on some path is COLLECTION |
| CstModel.ExploreAltsIsUnion | src/parse/cst/cst.ts:173-184 | a key is marked through an alternation exactly when it is marked through one of its alternatives |
| CstModel.AlternativeOrderIrrelevant | src/parse/cst/cst.ts:174-183 | the marks do not depend on the order of the alternatives |
| CstModel.ExampleRepeatedTerminal | test/parse/cst_spec.ts:52-67 | A, B, A gives {A: COLLECTION, B: NONE} |
| CstModel.ExampleDistinctTerminals | test/parse/cst_spec.ts:29-41 | A, B gives {A: NONE, B: NONE} |
| CstModel.ExampleExclusiveAlternatives | src/parse/cst/cst.ts:173-184 | A in one alternative and A, B in another leave both NONE |
| CstModel.ExampleRepetitionBodyStaysNone | src/parse/cst/cst.ts:146-157 | a key inside a repetition stays NONE under the default inIteration |
| CstModel.SharedSeparatorTail | src/parse/cst/cst.ts:158-172 | a separator already counted before a second separator repetition is marked again there |
| CstModel.ExampleSharedSeparator | src/parse/cst/cst.ts:158-172 | two separator repetitions with the same separator make the separator, which is not seeded, COLLECTION |
| Cst.TopRulesEntries | src/parse/cst/cst.ts:32-41 | the table has exactly one entry per rule name, holding the shape of the last rule with that name |
| Cst.DistinctTopRules | src/parse/cst/cst.ts:32-41 | with distinct names, every top rule's entry is buildIsCollection of its definition |
| Cst.BuildIsCollectionForTopRules | src/parse/cst/cst.ts:32-41 | the loop builds exactly the table TopRulesSpec |
| Cst.InitialChildren | src/parse/cst/cst.ts:199-209 | the dictionary has exactly the COLLECTION keys, each with an empty list |
| Cst.InitChildrenDictionary | src/parse/cst/cst.ts:199-209 | the loop builds a dictionary with exactly the COLLECTION keys, each with an empty list, and no NONE key |
| Cst.Recorded | src/parse/cst/cst.ts:12-30 | a collection key gets the element appended at the end of its list; otherwise the key's slot is overwritten; every other key is unchanged |
| Cst.AddTerminalToCst | src/parse/cst/cst.ts:12-20 | the node's dictionary becomes Recorded(old dictionary, the token's type, the token) |
| Cst.AddNoneTerminalToCst | src/parse/cst/cst.ts:22-30 | the node's dictionary becomes Recorded(old dictionary, the child's name, the child) |
| Cst.Derive | src/parse/cst/cst.ts:12-30 | after a run of additions every collection key holds a list |
| Cst.DeriveSlots | src/parse/cst/cst.ts:12-30 | a collection key holds all its elements in order; another key is present exactly when it occurred, and holds its last element |
| Cst.SingleChildKept | src/parse/cst/cst.ts:17-19 | a non-collection key that occurs once holds that one element |
| Cst.ExampleRepeatedTerminalNode | test/parse/cst_spec.ts:52-67 | tokens A, B, A give A a 2-element list in order and B a single token |
| Cst.ExampleDistinctTerminalsNode | test/parse/cst_spec.ts:29-41 | tokens A, B give two single-token slots |
| LexerModel.IndexOf | src/scan/lexer.ts:73-80 | the first position of a value, or -1 exactly when the value is absent |
| LexerModel.ZipLastLookup | src/scan/lexer.ts:51-55 | the zipped object has exactly the keys given, each with the value at its last occurrence |
| Lexer.AddStartOfInput | src/scan/lexer.ts:361-368 | the wrapped pattern keeps ignoreCase, drops multiline and global, and its source is `^(?:` + the original source + `)` |
| Lexer.WrappedKeyInjective | src/scan/lexer.ts:51-55 | two wrapped patterns have the same key exactly when their sources and ignoreCase flags agree |
| Lexer.CanLineTerminatorIff | src/scan/lexer.ts:86-89 | the scan of `/\\n\|\\r\|\\s/` finds a match exactly when a backslash is followed by `n`, `r` or `s` somewhere in the source |
| Lexer.WrappingKeepsLineTerminator | src/scan/lexer.ts:86-89 | wrapping does not change whether a source can contain a line terminator |
| Lexer.GroupOf | src/scan/lexer.ts:57-71 | SKIPPED gives undefined, a string gives itself, absent or undefined gives "default", anything else fails |
| Lexer.RelevantClasses | src/scan/lexer.ts:43-45 | exactly the classes whose pattern is not NA are kept |
| Lexer.Groups | src/scan/lexer.ts:57-71 | the group table succeeds exactly when every class's group is valid, and then holds each class's group at its position |
| Lexer.EmptyGroups | src/scan/lexer.ts:91-97 | exactly the string group names of the classes are keys, each with an empty array |
| Lexer.AnalyzeTables | src/scan/lexer.ts:47-108 | all per-pattern tables have the length of the relevant classes |
| Lexer.AnalyzeTokenClasses | src/scan/lexer.ts:41-109 | the analysis succeeds exactly when every non-NA class has a valid group, and then its tables are aligned with the non-NA classes |
| Lexer.AnalyzeRows | src/scan/lexer.ts:47-89 | row i holds class i's wrapped pattern, group, line-terminator flag, push and pop modes, and the index of its longer alternative (-1 when that is not a relevant class) |
| Lexer.AnalyzePatternClass | src/scan/lexer.ts:51-55 | a pattern's class is the last relevant class with the same source and ignoreCase flag |
| Lexer.ClassesByPatternLast | src/scan/lexer.ts:51-55 | the same, for any sequence of classes |
| Lexer.AnalyzeDistinctPatterns | src/scan/lexer.ts:51-55 | with pairwise distinct patterns, each pattern maps to its own class |
| Lexer.AnalyzeEmptyGroups | src/scan/lexer.ts:91-97 | the empty groups are exactly the string group names of the non-NA classes, each with an empty array |
| Lexer.StreamingTables | src/scan/lexer.ts:125-167 | the name tables have exactly the names of the relevant classes as keys |
| Lexer.StreamingAnalysis | src/scan/lexer.ts:111-176 | the streaming analysis succeeds exactly when every non-NA class has a valid group; then it has one pattern per relevant class and one entry per relevant name |
| Lexer.FillPatternCache | src/scan/lexer.ts:153-157 | slot i of the cache gets index i and the pattern stored under the name of class i, if any |
| Lexer.AnalyzeTokenClassesForStreamingLexer | src/scan/lexer.ts:111-176 | the method returns StreamingAnalysis; on failure the cache is untouched; on success slot i holds index i and the pattern of class i's name, absent exactly when no relevant class has that name |
| Lexer.StreamingIdxToPattern | src/scan/lexer.ts:165-167 | pattern i of the streaming table is the pattern of the last relevant class with class i's name |
| Lexer.TablesIdxToPattern | src/scan/lexer.ts:165-167 | the same, for the tables of any relevant list |
| Lexer.SkippedPatternsOf | src/scan/lexer.ts:145-150 | the skipped patterns are the wrapped patterns of the SKIPPED classes, in order |
| Lexer.TablesAgreeOnPatterns | src/scan/lexer.ts:165-167 | with distinct names, the streaming patterns are the analysis patterns |
| Lexer.TablesAgreeOnGroups | src/scan/lexer.ts:125-140 | with distinct names, the streaming group of each class is its analysis group |
| Lexer.TablesAgreeOnSkipped | src/scan/lexer.ts:145-150 | with distinct names, the skipped patterns are those of the SKIPPED classes |
| Lexer.StreamingIsTables | src/scan/lexer.ts:111-140 | both analyses succeed together, on the same relevant classes and groups |
| Lexer.StreamingAgreesWithAnalyze | src/scan/lexer.ts:111-176 | with distinct names among the relevant classes, the streaming analysis agrees with analyzeTokenClasses on patterns and groups, and its skipped patterns are those of the SKIPPED classes |
| Lexer.LineTerminators | src/scan/lexer.ts:370-392 | the number of line terminators is at most the text's length |
| Lexer.CountLineTerminators | src/scan/lexer.ts:370-392 | the loop counts each `\n` and each `\r` not followed by `\n` |
| Lexer.LineTerminatorsConcat | src/scan/lexer.ts:370-392 | the count of a concatenation is the sum of the counts, less one for a `\r\n` pair split between the pieces |
| Lexer.ExampleLineEndings | src/scan/lexer.ts:370-392 | `\r\n` counts 1, `\n\r` counts 2, `a\rb\n` counts 2 |
| Lexer.CloneEmptyGroups | src/scan/lexer.ts:516-533 | cloning succeeds exactly when every group is an array, and then maps every key to a fresh empty array |
| Lexer.CloneOfAnalyzedGroups | src/scan/lexer.ts:91-97 | the groups analyzeTokenClasses produces always clone, to themselves |
| LexerValidation.ReportEach | src/scan/lexer.ts:209-219 | one single-class error per failing class and nothing else |
| LexerValidation.Keep | src/scan/lexer.ts:221 | exactly the classes that pass are kept |
| LexerValidation.FindMissingPatterns | src/scan/lexer.ts:208-223 | one MISSING_PATTERN error per class without PATTERN; exactly the classes with one pass |
| LexerValidation.FindInvalidPatterns | src/scan/lexer.ts:225-241 | one INVALID_PATTERN error per non-RegExp pattern; exactly the RegExp classes pass |
| LexerValidation.HasEndAnchorIff | src/scan/lexer.ts:243 | the scan of `/[^\\][\$]/` over the start positions finds a match exactly when some `$` after the first character follows a non-backslash character |
| LexerValidation.FindEndOfInputAnchor | src/scan/lexer.ts:243-260 | one EOI_ANCHOR_FOUND error per source with a `$` after a non-backslash character, and errors of no other type |
| LexerValidation.FindUnsupportedFlags | src/scan/lexer.ts:262-278 | one UNSUPPORTED_FLAGS_FOUND error per pattern with the m or g flag, and errors of no other type |
| LexerValidation.FindInvalidGroupType | src/scan/lexer.ts:321-341 | one INVALID_GROUP_TYPE_FOUND error per GROUP that is present but neither SKIPPED, NA nor a string, and errors of no other type |
| LexerValidation.FindModesThatDoNotExist | src/scan/lexer.ts:343-359 | one PUSH_MODE_DOES_NOT_EXIST error per PUSH_MODE that is not a valid mode name, and errors of no other type |
| DuplicatePatterns.ReportDuplicates | src/scan/lexer.ts:300-316 | every reported error is a DUPLICATE_PATTERNS_FOUND error |
| DuplicatePatterns.ReportDuplicatesFacts | src/scan/lexer.ts:298-316 | exactly the sets with more than one member are reported, and disjoint sets give disjoint errors |
| DuplicatePatterns.SetsDisjoint | src/scan/lexer.ts:283-296 | no class is in two of the equivalence sets |
| DuplicatePatterns.SameSourceSameSet | src/scan/lexer.ts:283-296 | two collected classes with the same source are in the same set |
| DuplicatePatterns.DuplicatePatternsProperties | src/scan/lexer.ts:281-319 | every error names at least 2 distinct input classes with the same source; no class is in two errors; any two distinct non-NA classes with the same source share an error |
| LexerValidation.FindDuplicatePatterns | src/scan/lexer.ts:281-319 | the loop that mutates `found` produces exactly DuplicatePatternErrors |
| LexerValidation.ValidatePatterns | src/scan/lexer.ts:179-201 | the method builds exactly the concatenation of the seven checks, each applied to the classes that passed the earlier filters |
| LexerValidation.ValidationInStageOrder | src/scan/lexer.ts:179-201 | the errors come in pipeline order: missing, invalid, end anchor, flags, duplicates, group type, push mode |
| LexerValidation.ValidationLayering | src/scan/lexer.ts:182-198 | the later checks see exactly the RegExp classes, so no class without a pattern or with a non-RegExp pattern appears in a later error |
| LexerValidation.ValidationFirstChecks | src/scan/lexer.ts:182-188 | MISSING_PATTERN is reported exactly for the classes without PATTERN, INVALID_PATTERN exactly for the others whose pattern is not a RegExp |
| LexerValidation.PerformRuntimeChecks | src/scan/lexer.ts:394-438 | the method builds exactly RuntimeCheckErrors |
| LexerValidation.CheckModeEntries | src/scan/lexer.ts:423-431 | one undefined-entry error per undefined position of a mode |
| LexerValidation.CheckModes | src/scan/lexer.ts:421-435 | the loop over the modes builds exactly UndefinedEntries, mode by mode in order |
| LexerValidation.UndefinedInModeIff | src/scan/lexer.ts:423-431 | an undefined-entry error (mode, i) is reported exactly when position i of that mode is undefined, and at most once |
| LexerValidation.UndefinedEntriesIff | src/scan/lexer.ts:421-435 | over all modes, an undefined-entry error (mode, i) is reported exactly for undefined positions, without repetition |
| LexerValidation.RuntimeChecksProperties | src/scan/lexer.ts:394-438 | a missing defaultMode and a missing modes each give their own error; a missing default mode is reported only when both are present; one error per undefined (mode, index) pair |
| LexerValidation.UniqByName | src/scan/lexer.ts:447 | deduplication by name keeps every name and only input classes |
| LexerValidation.UniqByNameFirsts | src/scan/lexer.ts:447 | the deduplicated list holds exactly the first class of each name |
| LexerValidation.CheckUniformProperties | src/scan/lexer.ts:445-514 | at most one error; the mode holds exactly when every first-of-name class has the property; an error exactly when both kinds occur; the error lists exactly the names of the first-of-name classes with the property and those without it |
| LexerValidation.CheckLazyMode | src/scan/lexer.ts:445-476 | isLazy holds exactly when the first class of every name is lazy; at most one error, present exactly when first classes of both kinds occur (the error's contents: CheckUniformProperties; a worked case: ExampleLazyMix) |
| LexerValidation.CheckSimpleMode | src/scan/lexer.ts:483-514 | isSimple holds exactly when the first class of every name is simple; at most one error, present exactly when first classes of both kinds occur (the error's contents: CheckUniformProperties) |
| LexerValidation.CheckUniformOnConsistentNames | src/scan/lexer.ts:445-514 | when same-named classes agree, the mode holds exactly when all classes have the property, and there is an error exactly when both kinds occur |
| LexerValidation.ExampleLazyMix | src/scan/lexer.ts:445-476 | a lazy A and a non-lazy B give "not lazy" and one mix error naming A against B |
| LexerValidation.ExampleLazyFirstOfName | src/scan/lexer.ts:445-476 | a second class with an already seen name is not judged |

## Left out

- Regular expression matching is not modelled. Patterns are opaque records; the end-of-input and line-terminator scans are string predicates on the source text.
- The escaping of `/` inside a RegExp's `source` is not modelled. Pattern keys are `"/" + source + "/" + flags`.
- Lexer.AnalyzeTokenClasses, Lexer.StreamingAnalysis and Lexer.AnalyzeTokenClassesForStreamingLexer require every class's pattern to be a RegExp, because `addStartOfInput` is typed to take one. What the source does with a non-RegExp pattern there is not modelled.
- LexerValidation.HasEndAnchor does not find a `$` at index 0, exactly like the source's regular expression `[^\\][\$]`. This is kept as is, not corrected.
- Error message texts are left out. An error keeps its type and the classes, modes or names it refers to.
- Token classes are compared by value. The source compares constructors by identity, so two distinct classes with equal fields are one class here.
- `findDuplicatePatterns` dereferences `PATTERN.source` before checking for NA. A class without PATTERN would make it throw; in the pipeline no such class reaches it.
- LexerValidation.FindEndOfInputAnchor reports nothing for a class without PATTERN, where the source reads `pattern.source` of `undefined` (src/scan/lexer.ts:247-248) and throws a TypeError. The throw is not modelled: in the pipeline only RegExp classes reach this check (LexerValidation.ValidationLayering).
- Cst.AddTerminalToCst and Cst.AddNoneTerminalToCst require that a collection key already holds a list. The source's `push` (src/parse/cst/cst.ts:15, 25) throws a TypeError when the key is missing or holds a single child; that throw is not modelled. The dictionary the parser starts from has a list for every COLLECTION key (Cst.InitChildrenDictionary).
- `EXTENDING_TRANSFORMED_PATTERNS` (src/scan/lexer.ts:159-163) reads the global class registry `tokenIdxToClass`, which is not part of this model. Only the `idx` and `TRANSFORMED_PATTERN` cache loop is modelled, as an array update.
- Lexer.CloneEmptyGroups: the key order of the cloned object is not modelled, and neither is the freshness of the arrays it allocates (a map value cannot alias).
- `Lexer.NA` is modelled as a RegExp with source `NOT_APPLICABLE`. `Lexer.SKIPPED` is modelled as the string `SKIPPED`, so a string group with that text is SKIPPED.
- `isLazyTokenType` and `isSimpleTokenType` are fields of the token class, since they are defined outside this file.
- Characters are Dafny `char`s, standing for the UTF-16 code units `charCodeAt` reads.
- The generic grammar visitor `GAstVisitor` is modelled by recursion over the production tree. It visits the children of a definition and not a separator, so separator keys are not seeded.
- The `EXIT_ITERATION` marker is dropped when popped. Its `def` is `undefined`, and this assumes the utility `isEmpty` treats `undefined` as empty. If `isEmpty(undefined)` is false or falsy instead (as with an `arr && arr.length === 0` implementation), `currDef[0]` at src/parse/cst/cst.ts:90 throws a TypeError and buildIsCollection aborts on the first repetition; that outcome is not modelled.
- The `prod === EXIT_ITERATION` branch (src/parse/cst/cst.ts:91-98) is unreachable under either reading: the marker is pushed onto the stack as an item of its own and never placed inside a `def`. It has no counterpart in the model.
- Cst.BuildIsCollection does not prove "a key inside a repetition is COLLECTION". The source only reads the argument's iteration flag, never a path's, so this holds only when that flag is set (CstModel.InIterationMarksEveryConsumedKey).
- An Option is always entered: the source never pushes the path that skips it. A repetition body is explored once. An alternation with no alternatives ends its path.
- The parser runtime that calls addTerminalToCst and addNoneTerminalToCst is outside this model. Cst.Derive stands for a run of such calls.
