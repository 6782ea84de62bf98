/** The lexer definition checks of src/scan/lexer.ts: the pattern validation
    pipeline and its filters, the multi-mode definition checks, and the
    lazy / simple homogeneity checks. */
module LexerValidation {
  import opened Base
  import opened LexerModel
  import opened DuplicatePatterns

  // ---------------------------------------------------------------------------
  // The per-class filters

  /** The test `/[^\\][\$]/`, tried at each start position in turn. */
  predicate HasEndAnchor(source: string) {
    |source| >= 2 && ((source[0] != '\\' && source[1] == '$') || HasEndAnchor(source[1..]))
  }

  /** The test finds a `$` preceded by some character other than a
      backslash; a `$` at the very start is not found. */
  lemma {:induction false} HasEndAnchorIff(source: string)
    ensures HasEndAnchor(source) <==> exists i :: 1 <= i < |source| && source[i] == '$' && source[i - 1] != '\\'
  {
    if |source| >= 2 {
      HasEndAnchorIff(source[1..]);
      assert forall i :: 1 <= i < |source| - 1 ==> source[1..][i] == source[i + 1] && source[1..][i - 1] == source[i];
    }
  }

  /** The per-class checks of the pipeline. */
  datatype Check =
    | MissingCheck
    | InvalidCheck
    | EndAnchorCheck
    | FlagsCheck
    | GroupTypeCheck
    | PushModeCheck(validModes: seq<string>)

  /** Class `c` fails `check`. */
  predicate Fails(c: TokenClass, check: Check) {
    match check
    case MissingCheck => c.pattern.PatternAbsent?
    case InvalidCheck => !IsRegExp(c.pattern)
    case EndAnchorCheck => IsRegExp(c.pattern) && HasEndAnchor(AsRegex(c.pattern).source)
    case FlagsCheck => IsRegExp(c.pattern) && (AsRegex(c.pattern).multiline || AsRegex(c.pattern).global)
    // GROUP present but neither SKIPPED, nor NA, nor a string
    case GroupTypeCheck => c.group.GroupUndefined? || c.group.GroupOther?
    case PushModeCheck(validModes) => c.pushMode.Some? && c.pushMode.value !in validModes
  }

  function Reported(check: Check): ErrorType {
    match check
    case MissingCheck => MissingPattern
    case InvalidCheck => InvalidPattern
    case EndAnchorCheck => EoiAnchorFound
    case FlagsCheck => UnsupportedFlagsFound
    case GroupTypeCheck => InvalidGroupTypeFound
    case PushModeCheck(_) => PushModeDoesNotExist
  }

  /** One error per class failing `check`, in list order. */
  function ReportEach(classes: seq<TokenClass>, check: Check): (r: seq<LexerDefinitionError>)
    ensures |r| <= |classes|
    ensures forall e :: e in r ==> e.ClassError? && e.errorType == Reported(check) && |e.tokenClasses| == 1
                                   && e.tokenClasses[0] in classes && Fails(e.tokenClasses[0], check)
    ensures forall c :: c in classes && Fails(c, check) ==> ClassError(Reported(check), [c]) in r
  {
    if classes == [] then []
    else
      var c := classes[|classes| - 1];
      ReportEach(classes[..|classes| - 1], check) + (if Fails(c, check) then [ClassError(Reported(check), [c])] else [])
  }

  /** The classes passing `check`, in list order. */
  function Keep(classes: seq<TokenClass>, check: Check): (r: seq<TokenClass>)
    ensures |r| <= |classes|
    ensures forall c :: c in r <==> c in classes && !Fails(c, check)
  {
    if classes == [] then []
    else
      var c := classes[|classes| - 1];
      Keep(classes[..|classes| - 1], check) + (if Fails(c, check) then [] else [c])
  }

  /** `errors` holds exactly one error per class failing `check`, and nothing else. */
  ghost predicate ReportsExactly(errors: seq<LexerDefinitionError>, classes: seq<TokenClass>, check: Check) {
    && (forall e :: e in errors ==> e.ClassError? && e.errorType == Reported(check) && |e.tokenClasses| == 1)
    && (forall c {:trigger ClassError(Reported(check), [c]) in errors} ::
          ClassError(Reported(check), [c]) in errors <==> c in classes && Fails(c, check))
  }

  function FindMissingPatterns(tokenClasses: seq<TokenClass>): (r: FilterResult)
    ensures ReportsExactly(r.errors, tokenClasses, MissingCheck)
    ensures forall c :: c in r.valid <==> c in tokenClasses && !c.pattern.PatternAbsent?
  {
    FilterResult(ReportEach(tokenClasses, MissingCheck), Keep(tokenClasses, MissingCheck))
  }

  function FindInvalidPatterns(tokenClasses: seq<TokenClass>): (r: FilterResult)
    ensures ReportsExactly(r.errors, tokenClasses, InvalidCheck)
    ensures forall c :: c in r.valid <==> c in tokenClasses && IsRegExp(c.pattern)
  {
    FilterResult(ReportEach(tokenClasses, InvalidCheck), Keep(tokenClasses, InvalidCheck))
  }

  function FindEndOfInputAnchor(tokenClasses: seq<TokenClass>): (errors: seq<LexerDefinitionError>)
    ensures ReportsExactly(errors, tokenClasses, EndAnchorCheck)
    ensures AllOfType(errors, EoiAnchorFound)
  {
    ReportEach(tokenClasses, EndAnchorCheck)
  }

  function FindUnsupportedFlags(tokenClasses: seq<TokenClass>): (errors: seq<LexerDefinitionError>)
    ensures ReportsExactly(errors, tokenClasses, FlagsCheck)
    ensures AllOfType(errors, UnsupportedFlagsFound)
  {
    ReportEach(tokenClasses, FlagsCheck)
  }

  function FindInvalidGroupType(tokenClasses: seq<TokenClass>): (errors: seq<LexerDefinitionError>)
    ensures ReportsExactly(errors, tokenClasses, GroupTypeCheck)
    ensures AllOfType(errors, InvalidGroupTypeFound)
  {
    ReportEach(tokenClasses, GroupTypeCheck)
  }

  function FindModesThatDoNotExist(tokenClasses: seq<TokenClass>, validModes: seq<string>)
    : (errors: seq<LexerDefinitionError>)
    ensures ReportsExactly(errors, tokenClasses, PushModeCheck(validModes))
    ensures AllOfType(errors, PushModeDoesNotExist)
  {
    ReportEach(tokenClasses, PushModeCheck(validModes))
  }

  // ---------------------------------------------------------------------------
  // findDuplicatePatterns

  method FindDuplicatePatterns(tokenClasses: seq<TokenClass>) returns (errors: seq<LexerDefinitionError>)
    ensures errors == DuplicatePatternErrors(tokenClasses)
  {
    var found: seq<TokenClass> := [];
    var identicalPatterns: seq<seq<TokenClass>> := [];
    var i := 0;
    while i < |tokenClasses|
      invariant 0 <= i <= |tokenClasses|
      invariant (identicalPatterns, found) == IdenticalSets(tokenClasses, i)
    {
      var outerClass := tokenClasses[i];
      ghost var found0 := found;
      var result: seq<TokenClass> := [];
      var j := 0;
      while j < |tokenClasses|
        invariant 0 <= j <= |tokenClasses|
        invariant (result, found) == Collect(PatternSource(outerClass.pattern), tokenClasses[..j], found0)
      {
        var innerClass := tokenClasses[j];
        assert tokenClasses[..j + 1] == tokenClasses[..j] + [innerClass];
        if PatternSource(outerClass.pattern) == PatternSource(innerClass.pattern) && innerClass !in found
           && !innerClass.pattern.NA? {
          found := found + [innerClass];
          result := result + [innerClass];
        }
        j := j + 1;
      }
      assert tokenClasses[..j] == tokenClasses;
      identicalPatterns := identicalPatterns + [result];
      i := i + 1;
    }
    // `compact` drops nothing: every set is an array, hence truthy
    errors := [];
    var k := 0;
    while k < |identicalPatterns|
      invariant 0 <= k <= |identicalPatterns|
      invariant errors == ReportDuplicates(identicalPatterns[..k])
    {
      var setOfIdentical := identicalPatterns[k];
      assert identicalPatterns[..k + 1][..k] == identicalPatterns[..k];
      if |setOfIdentical| > 1 {
        errors := errors + [ClassError(DuplicatePatternsFound, setOfIdentical)];
      }
      k := k + 1;
    }
    assert identicalPatterns[..k] == identicalPatterns;
  }

  // ---------------------------------------------------------------------------
  // validatePatterns

  /** The classes the later checks of the pipeline see. */
  function PassingClasses(tokenClasses: seq<TokenClass>): seq<TokenClass> {
    FindInvalidPatterns(FindMissingPatterns(tokenClasses).valid).valid
  }

  /** The errors of the checks that run on the classes passing the first two. */
  function LaterErrors(valid: seq<TokenClass>, validModesNames: seq<string>): seq<LexerDefinitionError> {
    FindEndOfInputAnchor(valid) + FindUnsupportedFlags(valid) + DuplicatePatternErrors(valid)
    + FindInvalidGroupType(valid) + FindModesThatDoNotExist(valid, validModesNames)
  }

  /** What `validatePatterns` returns: the errors of each check in pipeline
      order, the later checks seeing only the classes that passed the first
      two. */
  function ValidationErrors(tokenClasses: seq<TokenClass>, validModesNames: seq<string>): seq<LexerDefinitionError> {
    var missingResult := FindMissingPatterns(tokenClasses);
    var invalidResult := FindInvalidPatterns(missingResult.valid);
    missingResult.errors + invalidResult.errors + LaterErrors(invalidResult.valid, validModesNames)
  }

  method ValidatePatterns(tokenClasses: seq<TokenClass>, validModesNames: seq<string>)
    returns (errors: seq<LexerDefinitionError>)
    ensures errors == ValidationErrors(tokenClasses, validModesNames)
  {
    var missingResult := FindMissingPatterns(tokenClasses);
    var validTokenClasses := missingResult.valid;
    errors := missingResult.errors;

    var invalidResult := FindInvalidPatterns(validTokenClasses);
    validTokenClasses := invalidResult.valid;
    errors := errors + invalidResult.errors;

    ghost var first := errors;
    var anchors := FindEndOfInputAnchor(validTokenClasses);
    errors := errors + anchors;
    var flags := FindUnsupportedFlags(validTokenClasses);
    errors := errors + flags;
    var duplicates := FindDuplicatePatterns(validTokenClasses);
    errors := errors + duplicates;
    var groups := FindInvalidGroupType(validTokenClasses);
    errors := errors + groups;
    var modes := FindModesThatDoNotExist(validTokenClasses, validModesNames);
    errors := errors + modes;
    ConcatLater(first, anchors, flags, duplicates, groups, modes);
  }

  /** Appending the later errors one by one is appending their concatenation. */
  lemma ConcatLater(first: seq<LexerDefinitionError>, a: seq<LexerDefinitionError>, b: seq<LexerDefinitionError>,
                    c: seq<LexerDefinitionError>, d: seq<LexerDefinitionError>, e: seq<LexerDefinitionError>)
    ensures first + a + b + c + d + e == first + (a + b + c + d + e)
  {
  }

  /** The position of each error type in the pipeline. */
  function Stage(t: ErrorType): nat {
    match t
    case MissingPattern => 0
    case InvalidPattern => 1
    case EoiAnchorFound => 2
    case UnsupportedFlagsFound => 3
    case DuplicatePatternsFound => 4
    case InvalidGroupTypeFound => 5
    case PushModeDoesNotExist => 6
    case _ => 7
  }

  predicate InStageOrder(errors: seq<LexerDefinitionError>) {
    forall i, j :: 0 <= i < j < |errors| ==> Stage(TypeOf(errors[i])) <= Stage(TypeOf(errors[j]))
  }

  predicate AllOfType(errors: seq<LexerDefinitionError>, t: ErrorType) {
    forall e :: e in errors ==> TypeOf(e) == t
  }

  /** `errors` is in stage order and reaches no stage after that of `t`. */
  predicate OrderedUpTo(errors: seq<LexerDefinitionError>, t: ErrorType) {
    InStageOrder(errors) && forall e :: e in errors ==> Stage(TypeOf(e)) <= Stage(t)
  }

  lemma OrderedConcat(a: seq<LexerDefinitionError>, b: seq<LexerDefinitionError>, s: ErrorType, t: ErrorType)
    requires OrderedUpTo(a, s) && Stage(s) <= Stage(t) && AllOfType(b, t)
    ensures OrderedUpTo(a + b, t)
  {
    var ab := a + b;
    forall i, j | 0 <= i < j < |ab|
      ensures Stage(TypeOf(ab[i])) <= Stage(TypeOf(ab[j]))
    {
      if j >= |a| {
        assert ab[j] == b[j - |a|];
        if i >= |a| {
          assert ab[i] == b[i - |a|];
        } else {
          assert ab[i] == a[i];
        }
      } else {
        assert ab[i] == a[i] && ab[j] == a[j];
      }
    }
  }

  /** Each later check reports errors of its own type only. */
  /** The later checks report nothing of the first two stages. */
  lemma LaterStages(v: seq<TokenClass>, validModesNames: seq<string>)
    ensures forall e :: e in LaterErrors(v, validModesNames) ==> Stage(TypeOf(e)) >= 2
  {
    var a, b, d := FindEndOfInputAnchor(v), FindUnsupportedFlags(v), DuplicatePatternErrors(v);
    var g, p := FindInvalidGroupType(v), FindModesThatDoNotExist(v, validModesNames);
    StagesOfParts(a, b, d, g, p);
  }

  lemma StagesOfParts(a: seq<LexerDefinitionError>, b: seq<LexerDefinitionError>, d: seq<LexerDefinitionError>,
                      g: seq<LexerDefinitionError>, p: seq<LexerDefinitionError>)
    requires AllOfType(a, EoiAnchorFound) && AllOfType(b, UnsupportedFlagsFound)
    requires AllOfType(d, DuplicatePatternsFound) && AllOfType(g, InvalidGroupTypeFound)
    requires AllOfType(p, PushModeDoesNotExist)
    ensures forall e :: e in a + b + d + g + p ==> Stage(TypeOf(e)) >= 2
  {
  }

  /** Appending errors of no earlier stage keeps the stage order. */
  lemma OrderedJoin(a: seq<LexerDefinitionError>, b: seq<LexerDefinitionError>, t: ErrorType)
    requires OrderedUpTo(a, t) && InStageOrder(b)
    requires forall e :: e in b ==> Stage(TypeOf(e)) >= Stage(t)
    ensures InStageOrder(a + b)
  {
    var ab := a + b;
    forall i, j | 0 <= i < j < |ab|
      ensures Stage(TypeOf(ab[i])) <= Stage(TypeOf(ab[j]))
    {
      if j >= |a| {
        assert ab[j] == b[j - |a|] && ab[j] in b;
        if i >= |a| {
          assert ab[i] == b[i - |a|];
        } else {
          assert ab[i] == a[i] && ab[i] in a;
        }
      } else {
        assert ab[i] == a[i] && ab[j] == a[j];
      }
    }
  }

  /** The later checks report in their own order. */
  lemma LaterInStageOrder(v: seq<TokenClass>, validModesNames: seq<string>)
    ensures InStageOrder(LaterErrors(v, validModesNames))
  {
    var e3, e4, e5 := FindEndOfInputAnchor(v), FindUnsupportedFlags(v), DuplicatePatternErrors(v);
    var e6, e7 := FindInvalidGroupType(v), FindModesThatDoNotExist(v, validModesNames);
    assert e3 == [] + e3;
    OrderedConcat([], e3, EoiAnchorFound, EoiAnchorFound);
    OrderedConcat(e3, e4, EoiAnchorFound, UnsupportedFlagsFound);
    OrderedConcat(e3 + e4, e5, UnsupportedFlagsFound, DuplicatePatternsFound);
    OrderedConcat(e3 + e4 + e5, e6, DuplicatePatternsFound, InvalidGroupTypeFound);
    OrderedConcat(e3 + e4 + e5 + e6, e7, InvalidGroupTypeFound, PushModeDoesNotExist);
  }

  /** The errors come in pipeline order: the missing-pattern errors first,
      then the invalid-pattern errors, then each later check's errors in
      turn. */
  lemma ValidationInStageOrder(tokenClasses: seq<TokenClass>, validModesNames: seq<string>)
    ensures InStageOrder(ValidationErrors(tokenClasses, validModesNames))
  {
    var missingResult := FindMissingPatterns(tokenClasses);
    var invalidResult := FindInvalidPatterns(missingResult.valid);
    var e1, e2 := missingResult.errors, invalidResult.errors;
    var later := LaterErrors(invalidResult.valid, validModesNames);
    assert AllOfType(e1, MissingPattern) && AllOfType(e2, InvalidPattern);
    assert e1 == [] + e1;
    OrderedConcat([], e1, MissingPattern, MissingPattern);
    OrderedConcat(e1, e2, MissingPattern, InvalidPattern);
    LaterInStageOrder(invalidResult.valid, validModesNames);
    LaterStages(invalidResult.valid, validModesNames);
    OrderedJoin(e1 + e2, later, InvalidPattern);
  }

  /** The errors of the later checks name only classes that reach them. */
  lemma LaterCheckMembers(v: seq<TokenClass>, validModesNames: seq<string>)
    ensures forall e, c :: e in LaterErrors(v, validModesNames) && c in Members(e) ==> c in v
  {
    DuplicatePatternsProperties(v);
  }

  /** Pipeline layering: a class reported as missing or invalid is left out
      of every later check, whose errors name only classes with a RegExp
      pattern. */
  lemma ValidationLayering(tokenClasses: seq<TokenClass>, validModesNames: seq<string>)
    ensures forall c :: c in PassingClasses(tokenClasses) <==> c in tokenClasses && IsRegExp(c.pattern)
    ensures forall e, c ::
              (e in ValidationErrors(tokenClasses, validModesNames) && Stage(TypeOf(e)) >= 2 && c in Members(e))
              ==> c in tokenClasses && IsRegExp(c.pattern)
  {
    var missingResult := FindMissingPatterns(tokenClasses);
    var invalidResult := FindInvalidPatterns(missingResult.valid);
    var v := invalidResult.valid;
    var later := LaterErrors(v, validModesNames);
    assert PassingClasses(tokenClasses) == v;
    assert ValidationErrors(tokenClasses, validModesNames) == missingResult.errors + invalidResult.errors + later;
    LaterCheckMembers(v, validModesNames);
    LayeringSplit(missingResult.errors, invalidResult.errors, later, tokenClasses, missingResult.valid, v);
  }

  lemma LayeringSplit(e1: seq<LexerDefinitionError>, e2: seq<LexerDefinitionError>, later: seq<LexerDefinitionError>,
                      classes: seq<TokenClass>, mid: seq<TokenClass>, v: seq<TokenClass>)
    requires ReportsExactly(e1, classes, MissingCheck) && ReportsExactly(e2, mid, InvalidCheck)
    requires forall c :: c in mid <==> c in classes && !c.pattern.PatternAbsent?
    requires forall c :: c in v <==> c in mid && IsRegExp(c.pattern)
    requires forall e, c :: e in later && c in Members(e) ==> c in v
    ensures forall e, c :: (e in e1 + e2 + later && Stage(TypeOf(e)) >= 2 && c in Members(e))
                           ==> c in classes && IsRegExp(c.pattern)
  {
  }

  /** The first two checks report exactly the classes without a pattern and
      those whose pattern is not a RegExp. */
  lemma ValidationFirstChecks(tokenClasses: seq<TokenClass>, validModesNames: seq<string>)
    ensures forall c :: ClassError(MissingPattern, [c]) in ValidationErrors(tokenClasses, validModesNames)
                        <==> c in tokenClasses && c.pattern.PatternAbsent?
    ensures forall c :: ClassError(InvalidPattern, [c]) in ValidationErrors(tokenClasses, validModesNames)
                        <==> c in tokenClasses && !c.pattern.PatternAbsent? && !IsRegExp(c.pattern)
  {
    var missingResult := FindMissingPatterns(tokenClasses);
    var invalidResult := FindInvalidPatterns(missingResult.valid);
    var v := invalidResult.valid;
    LaterStages(v, validModesNames);
    FirstChecksSplit(missingResult.errors, invalidResult.errors, LaterErrors(v, validModesNames),
                     tokenClasses, missingResult.valid);
  }

  lemma FirstChecksSplit(e1: seq<LexerDefinitionError>, e2: seq<LexerDefinitionError>, later: seq<LexerDefinitionError>,
                         classes: seq<TokenClass>, mid: seq<TokenClass>)
    requires ReportsExactly(e1, classes, MissingCheck) && ReportsExactly(e2, mid, InvalidCheck)
    requires forall c :: c in mid <==> c in classes && !c.pattern.PatternAbsent?
    requires forall e :: e in later ==> Stage(TypeOf(e)) >= 2
    ensures forall c :: ClassError(MissingPattern, [c]) in e1 + e2 + later <==> c in classes && c.pattern.PatternAbsent?
    ensures forall c :: ClassError(InvalidPattern, [c]) in e1 + e2 + later
                        <==> c in classes && !c.pattern.PatternAbsent? && !IsRegExp(c.pattern)
  {
    forall c
      ensures ClassError(MissingPattern, [c]) in e1 + e2 + later <==> c in classes && c.pattern.PatternAbsent?
      ensures ClassError(InvalidPattern, [c]) in e1 + e2 + later
              <==> c in classes && !c.pattern.PatternAbsent? && !IsRegExp(c.pattern)
    {
      var m, i := ClassError(MissingPattern, [c]), ClassError(InvalidPattern, [c]);
      assert ClassError(Reported(MissingCheck), [c]) in e1 <==> c in classes && Fails(c, MissingCheck);
      assert ClassError(Reported(InvalidCheck), [c]) in e2 <==> c in mid && Fails(c, InvalidCheck);
      assert m !in e2 && m !in later;
      assert i !in e1 && i !in later;
    }
  }

  // ---------------------------------------------------------------------------
  // performRuntimeChecks

  /** One mode of a multi-mode definition: its name and its entries, where an
      undefined entry is None. */
  datatype ModeEntry = ModeEntry(name: string, tokenClasses: seq<Option<TokenClass>>)

  /** A multi-mode lexer definition; None marks an absent property. */
  datatype MultiModeDefinition = MultiModeDefinition(defaultMode: Option<string>, modes: Option<seq<ModeEntry>>)

  function ModeNames(modes: seq<ModeEntry>): set<string> {
    set m | m in modes :: m.name
  }

  /** One error per undefined entry of a mode, in index order. */
  function UndefinedInMode(name: string, entries: seq<Option<TokenClass>>): seq<LexerDefinitionError> {
    if entries == [] then []
    else
      var n := |entries| - 1;
      UndefinedInMode(name, entries[..n]) + (if entries[n].None? then [UndefinedEntry(name, n)] else [])
  }

  function UndefinedEntries(modes: seq<ModeEntry>): seq<LexerDefinitionError> {
    if modes == [] then []
    else
      var m := modes[|modes| - 1];
      UndefinedEntries(modes[..|modes| - 1]) + UndefinedInMode(m.name, m.tokenClasses)
  }

  /** What `performRuntimeChecks` returns. */
  function RuntimeCheckErrors(lexerDefinition: MultiModeDefinition): seq<LexerDefinitionError> {
    var d := lexerDefinition;
    HeaderErrors(d) + (if d.modes.Some? then UndefinedEntries(d.modes.value) else [])
  }

  /** The errors about the definition as a whole, before the per-entry ones. */
  function HeaderErrors(d: MultiModeDefinition): seq<LexerDefinitionError> {
    (if d.defaultMode.None? then [DefinitionError(MultiModeLexerWithoutDefaultMode)] else [])
    + (if d.modes.None? then [DefinitionError(MultiModeLexerWithoutModesProperty)] else [])
    + (if d.modes.Some? && d.defaultMode.Some? && d.defaultMode.value !in ModeNames(d.modes.value)
       then [DefinitionError(MultiModeLexerDefaultModeValueDoesNotExist)] else [])
  }

  method PerformRuntimeChecks(lexerDefinition: MultiModeDefinition) returns (errors: seq<LexerDefinitionError>)
    ensures errors == RuntimeCheckErrors(lexerDefinition)
  {
    errors := [];
    if lexerDefinition.defaultMode.None? {
      errors := errors + [DefinitionError(MultiModeLexerWithoutDefaultMode)];
    }
    if lexerDefinition.modes.None? {
      errors := errors + [DefinitionError(MultiModeLexerWithoutModesProperty)];
    }
    if lexerDefinition.modes.Some? && lexerDefinition.defaultMode.Some?
       && lexerDefinition.defaultMode.value !in ModeNames(lexerDefinition.modes.value) {
      errors := errors + [DefinitionError(MultiModeLexerDefaultModeValueDoesNotExist)];
    }
    if lexerDefinition.modes.Some? {
      var undefinedEntries := CheckModes(lexerDefinition.modes.value);
      errors := errors + undefinedEntries;
    }
  }

  /** The outer `forEach` over the modes. */
  method CheckModes(modes: seq<ModeEntry>) returns (errors: seq<LexerDefinitionError>)
    ensures errors == UndefinedEntries(modes)
  {
    errors := [];
    var m := 0;
    while m < |modes|
      invariant 0 <= m <= |modes|
      invariant errors == UndefinedEntries(modes[..m])
    {
      var modeErrors := CheckModeEntries(modes[m].name, modes[m].tokenClasses);
      assert modes[..m + 1][..m] == modes[..m];
      errors := errors + modeErrors;
      m := m + 1;
    }
    assert modes[..m] == modes;
  }

  /** The inner `forEach` over one mode's entries. */
  method CheckModeEntries(currModeName: string, currModeValue: seq<Option<TokenClass>>)
    returns (errors: seq<LexerDefinitionError>)
    ensures errors == UndefinedInMode(currModeName, currModeValue)
  {
    errors := [];
    var currIdx := 0;
    while currIdx < |currModeValue|
      invariant 0 <= currIdx <= |currModeValue|
      invariant errors == UndefinedInMode(currModeName, currModeValue[..currIdx])
    {
      assert currModeValue[..currIdx + 1][..currIdx] == currModeValue[..currIdx];
      if currModeValue[currIdx].None? {
        errors := errors + [UndefinedEntry(currModeName, currIdx)];
      }
      currIdx := currIdx + 1;
    }
    assert currModeValue[..currIdx] == currModeValue;
  }

  lemma {:induction false} UndefinedInModeIff(name: string, entries: seq<Option<TokenClass>>)
    ensures forall e :: e in UndefinedInMode(name, entries) ==> e.UndefinedEntry? && e.mode == name
    ensures forall i: nat :: UndefinedEntry(name, i) in UndefinedInMode(name, entries)
                             <==> i < |entries| && entries[i].None?
    ensures NoDuplicates(UndefinedInMode(name, entries))
  {
    if entries != [] {
      var n := |entries| - 1;
      UndefinedInModeIff(name, entries[..n]);
      assert forall i :: 0 <= i < n ==> entries[..n][i] == entries[i];
    }
  }

  lemma {:induction false} UndefinedEntriesIff(modes: seq<ModeEntry>)
    requires forall i, j :: 0 <= i < j < |modes| ==> modes[i].name != modes[j].name
    ensures forall e :: e in UndefinedEntries(modes) ==> e.UndefinedEntry?
    ensures forall name, i: nat :: UndefinedEntry(name, i) in UndefinedEntries(modes)
              <==> exists m :: m in modes && m.name == name && i < |m.tokenClasses| && m.tokenClasses[i].None?
    ensures NoDuplicates(UndefinedEntries(modes))
  {
    if modes != [] {
      var n := |modes| - 1;
      var init, last := modes[..n], modes[n];
      UndefinedEntriesIff(init);
      UndefinedInModeIff(last.name, last.tokenClasses);
      assert modes == init + [last];
      var a, b := UndefinedEntries(init), UndefinedInMode(last.name, last.tokenClasses);
      forall e | e in a
        ensures e !in b
      {
      }
      forall i, j | 0 <= i < j < |a + b|
        ensures (a + b)[i] != (a + b)[j]
      {
        if j >= |a| && i < |a| {
          assert (a + b)[i] in a && (a + b)[j] in b;
        }
      }
    }
  }

  /** The multi-mode checks: a missing `defaultMode` and a missing `modes`
      each give their own error; the default mode is reported as unknown only
      when both are present and it names no mode; and, mode names being
      distinct (they are the keys of an object), there is exactly one
      undefined-entry error per undefined (mode, index) pair. */
  lemma RuntimeChecksProperties(d: MultiModeDefinition)
    requires d.modes.Some? ==>
               forall i, j :: 0 <= i < j < |d.modes.value| ==> d.modes.value[i].name != d.modes.value[j].name
    ensures DefinitionError(MultiModeLexerWithoutDefaultMode) in RuntimeCheckErrors(d) <==> d.defaultMode.None?
    ensures DefinitionError(MultiModeLexerWithoutModesProperty) in RuntimeCheckErrors(d) <==> d.modes.None?
    ensures DefinitionError(MultiModeLexerDefaultModeValueDoesNotExist) in RuntimeCheckErrors(d)
            <==> d.modes.Some? && d.defaultMode.Some? && d.defaultMode.value !in ModeNames(d.modes.value)
    ensures forall name, i: nat :: UndefinedEntry(name, i) in RuntimeCheckErrors(d)
              <==> d.modes.Some? && exists m :: m in d.modes.value && m.name == name
                                                && i < |m.tokenClasses| && m.tokenClasses[i].None?
    ensures NoDuplicates(RuntimeCheckErrors(d))
  {
    var h := HeaderErrors(d);
    assert forall e :: e in h ==> e.DefinitionError?;
    assert NoDuplicates(h);
    if d.modes.Some? {
      UndefinedEntriesIff(d.modes.value);
      JoinNoDuplicates(h, UndefinedEntries(d.modes.value));
    }
  }

  lemma JoinNoDuplicates(h: seq<LexerDefinitionError>, u: seq<LexerDefinitionError>)
    requires NoDuplicates(h) && NoDuplicates(u)
    requires forall e :: e in h ==> e.DefinitionError?
    requires forall e :: e in u ==> e.UndefinedEntry?
    ensures NoDuplicates(h + u)
  {
    forall i, j | 0 <= i < j < |h + u|
      ensures (h + u)[i] != (h + u)[j]
    {
      if j >= |h| && i < |h| {
        assert (h + u)[i] in h && (h + u)[j] in u;
      }
    }
  }

  // ---------------------------------------------------------------------------
  // checkLazyMode / checkSimpleMode

  /** Position `i` holds the first class with its name. */
  predicate FirstOfName(classes: seq<TokenClass>, i: int) {
    0 <= i < |classes| && forall j :: 0 <= j < i ==> classes[j].name != classes[i].name
  }

  function NameSet(classes: seq<TokenClass>): set<string> {
    set c | c in classes :: c.name
  }

  /** `uniq` by token name: the first class of each name, in list order. */
  function UniqByName(classes: seq<TokenClass>): (r: seq<TokenClass>)
    ensures NameSet(r) == NameSet(classes)
    ensures forall c :: c in r ==> c in classes
  {
    if classes == [] then []
    else
      var init := UniqByName(classes[..|classes| - 1]);
      var c := classes[|classes| - 1];
      NameSetAppend(classes[..|classes| - 1], c);
      NameSetAppend(init, c);
      assert classes == classes[..|classes| - 1] + [c];
      init + (if c.name in NameSet(init) then [] else [c])
  }

  lemma NameSetAppend(s: seq<TokenClass>, c: TokenClass)
    ensures NameSet(s + [c]) == NameSet(s) + {c.name}
  {
    assert forall d :: d in s + [c] <==> d in s || d == c;
  }

  lemma UniqByNameFirsts(classes: seq<TokenClass>)
    ensures forall c :: c in UniqByName(classes) <==> exists i :: FirstOfName(classes, i) && classes[i] == c
  {
    UniqByNameSound(classes);
    UniqByNameComplete(classes);
  }

  /** Every class `uniq` keeps is the first of its name. */
  lemma {:induction false} UniqByNameSound(classes: seq<TokenClass>)
    ensures forall c :: c in UniqByName(classes) ==> exists i :: FirstOfName(classes, i) && classes[i] == c
  {
    if classes != [] {
      var n := |classes| - 1;
      var init, last := classes[..n], classes[n];
      var u := UniqByName(init);
      UniqByNameSound(init);
      FirstOfNamePrefix(classes, n);
      assert UniqByName(classes) == u + (if last.name in NameSet(u) then [] else [last]);
      if last.name !in NameSet(init) {
        forall k | 0 <= k < n
          ensures classes[k].name != last.name
        {
          assert init[k] in init;
        }
        assert FirstOfName(classes, n);
      }
      forall d | d in u
        ensures exists i :: FirstOfName(classes, i) && classes[i] == d
      {
        var i :| FirstOfName(init, i) && init[i] == d;
        assert FirstOfName(classes, i) && classes[i] == d;
      }
    }
  }

  /** The first class of every name is kept. */
  lemma {:induction false} UniqByNameComplete(classes: seq<TokenClass>)
    ensures forall i :: FirstOfName(classes, i) ==> classes[i] in UniqByName(classes)
  {
    if classes != [] {
      var n := |classes| - 1;
      var init, last := classes[..n], classes[n];
      var u := UniqByName(init);
      UniqByNameComplete(init);
      FirstOfNamePrefix(classes, n);
      assert UniqByName(classes) == u + (if last.name in NameSet(u) then [] else [last]);
      forall i | FirstOfName(classes, i)
        ensures classes[i] in UniqByName(classes)
      {
        if i < n {
          assert FirstOfName(init, i) && init[i] == classes[i];
        } else {
          FirstNameIsNew(classes);
        }
      }
    }
  }

  lemma FirstNameIsNew(classes: seq<TokenClass>)
    requires classes != [] && FirstOfName(classes, |classes| - 1)
    ensures classes[|classes| - 1].name !in NameSet(classes[..|classes| - 1])
  {
    var n := |classes| - 1;
    var init, last := classes[..n], classes[n];
    forall d | d in init
      ensures d.name != last.name
    {
      var k :| 0 <= k < n && init[k] == d;
      assert classes[k] == d;
    }
  }

  lemma FirstOfNamePrefix(classes: seq<TokenClass>, n: int)
    requires 0 <= n <= |classes|
    ensures forall i :: 0 <= i < n ==> classes[..n][i] == classes[i]
    ensures forall i :: 0 <= i < n ==> (FirstOfName(classes[..n], i) <==> FirstOfName(classes, i))
  {
  }

  function Names(classes: seq<TokenClass>): seq<string> {
    seq(|classes|, i requires 0 <= i < |classes| => classes[i].name)
  }

  /** The names of the classes are the names of their members. */
  lemma NamesMembers(classes: seq<TokenClass>)
    ensures forall n :: n in Names(classes) <==> exists c :: c in classes && c.name == n
  {
    forall n | n in Names(classes)
      ensures exists c :: c in classes && c.name == n
    {
      var i :| 0 <= i < |classes| && Names(classes)[i] == n;
      assert classes[i] in classes;
    }
    forall c | c in classes
      ensures c.name in Names(classes)
    {
      var i :| 0 <= i < |classes| && classes[i] == c;
      assert Names(classes)[i] == c.name;
    }
  }

  /** The classes whose property is `want`, in list order. */
  function Select(classes: seq<TokenClass>, has: TokenClass -> bool, want: bool): (r: seq<TokenClass>)
    ensures forall c :: c in r <==> c in classes && has(c) == want
  {
    if classes == [] then []
    else
      var c := classes[|classes| - 1];
      Select(classes[..|classes| - 1], has, want) + (if has(c) == want then [c] else [])
  }

  /** The outcome of a homogeneity check. */
  datatype ModeCheck = ModeCheck(holds: bool, errors: seq<LexerDefinitionError>)

  /** The shared shape of checkLazyMode and checkSimpleMode: over the
      name-deduplicated classes, `holds` is "every class has the property",
      and a mix of both kinds gives one error naming each side. */
  function CheckUniform(allTokenTypes: seq<TokenClass>, has: TokenClass -> bool, kind: ErrorType): ModeCheck {
    var allTokensTypeSet := UniqByName(allTokenTypes);
    var areAll := forall c :: c in allTokensTypeSet ==> has(c);
    var areAllNot := forall c :: c in allTokensTypeSet ==> !has(c);
    if !areAll && !areAllNot then
      ModeCheck(areAll, [MixError(kind, Names(Select(allTokensTypeSet, has, true)),
                                        Names(Select(allTokensTypeSet, has, false)))])
    else ModeCheck(areAll, [])
  }

  predicate IsLazy(c: TokenClass) {
    c.isLazy
  }

  predicate IsSimple(c: TokenClass) {
    c.isSimple
  }

  /** `isLazy` holds exactly when the first class of every name is lazy;
      there is one error exactly when first classes of both kinds occur. */
  function CheckLazyMode(allTokenTypes: seq<TokenClass>): (r: ModeCheck)
    ensures r.holds <==> FirstsAll(allTokenTypes, IsLazy, true)
    ensures |r.errors| <= 1
    ensures r.errors != [] <==> !FirstsAll(allTokenTypes, IsLazy, true) && !FirstsAll(allTokenTypes, IsLazy, false)
  {
    CheckUniformProperties(allTokenTypes, IsLazy, LexerDefinitionCannotMixLazyAndNotLazy);
    CheckUniform(allTokenTypes, IsLazy, LexerDefinitionCannotMixLazyAndNotLazy)
  }

  /** The same for `isSimple`. */
  function CheckSimpleMode(allTokenTypes: seq<TokenClass>): (r: ModeCheck)
    ensures r.holds <==> FirstsAll(allTokenTypes, IsSimple, true)
    ensures |r.errors| <= 1
    ensures r.errors != [] <==> !FirstsAll(allTokenTypes, IsSimple, true) && !FirstsAll(allTokenTypes, IsSimple, false)
  {
    CheckUniformProperties(allTokenTypes, IsSimple, LexerDefinitionCannotMixSimpleAndNotSimple);
    CheckUniform(allTokenTypes, IsSimple, LexerDefinitionCannotMixSimpleAndNotSimple)
  }

  /** The property judged on the first class of each name. */
  ghost predicate FirstsAll(classes: seq<TokenClass>, has: TokenClass -> bool, value: bool) {
    forall i :: FirstOfName(classes, i) ==> has(classes[i]) == value
  }

  /** `holds` says that the first class of every name has the property
      (vacuously true for no classes); there is at most one error, and there
      is one exactly when some first class has it and another has not. */
  lemma CheckUniformProperties(allTokenTypes: seq<TokenClass>, has: TokenClass -> bool, kind: ErrorType)
    ensures var r := CheckUniform(allTokenTypes, has, kind);
            && |r.errors| <= 1
            && (r.holds <==> FirstsAll(allTokenTypes, has, true))
            && (r.errors != [] <==> !FirstsAll(allTokenTypes, has, true) && !FirstsAll(allTokenTypes, has, false))
            && (forall e :: e in r.errors ==> e.MixError? && e.errorType == kind)
    ensures forall e, n :: e in CheckUniform(allTokenTypes, has, kind).errors ==>
              && (n in e.withProperty <==> FirstNamed(allTokenTypes, has, true, n))
              && (n in e.withoutProperty <==> FirstNamed(allTokenTypes, has, false, n))
  {
    UniqByNameFirsts(allTokenTypes);
    var u := UniqByName(allTokenTypes);
    var r := CheckUniform(allTokenTypes, has, kind);
    if r.errors != [] {
      MixNames(allTokenTypes, u, has, true);
      MixNames(allTokenTypes, u, has, false);
    }
  }

  /** Some first class of its name is called `n` and its property is `want`. */
  ghost predicate FirstNamed(classes: seq<TokenClass>, has: TokenClass -> bool, want: bool, n: string) {
    exists i :: FirstOfName(classes, i) && has(classes[i]) == want && classes[i].name == n
  }

  /** The names an error lists for one side are those of the first classes
      of each name on that side. */
  lemma MixNames(classes: seq<TokenClass>, u: seq<TokenClass>, has: TokenClass -> bool, want: bool)
    requires forall c :: c in u <==> exists i :: FirstOfName(classes, i) && classes[i] == c
    ensures forall n :: n in Names(Select(u, has, want)) <==> FirstNamed(classes, has, want, n)
  {
    NamesMembers(Select(u, has, want));
    forall n | FirstNamed(classes, has, want, n)
      ensures n in Names(Select(u, has, want))
    {
      var i :| FirstOfName(classes, i) && has(classes[i]) == want && classes[i].name == n;
      assert classes[i] in Select(u, has, want);
    }
  }

  /** With classes of one name agreeing on the property, judging the first
      class of each name is judging every class. */
  lemma FirstsAllIff(classes: seq<TokenClass>, has: TokenClass -> bool, value: bool)
    requires forall i, j ::
               (0 <= i < |classes| && 0 <= j < |classes| && classes[i].name == classes[j].name)
               ==> has(classes[i]) == has(classes[j])
    ensures FirstsAll(classes, has, value) <==> forall c :: c in classes ==> has(c) == value
  {
    if FirstsAll(classes, has, value) {
      forall c | c in classes
        ensures has(c) == value
      {
        var j :| 0 <= j < |classes| && classes[j] == c;
        var i := FirstIndexOfName(classes, j);
      }
    } else {
      var i :| FirstOfName(classes, i) && has(classes[i]) != value;
      assert classes[i] in classes;
    }
  }

  /** When classes of one name agree on the property (as for one class
      listed twice), the check is over all classes: `holds` is "all have
      it", and the error appears exactly for a genuine mix. */
  lemma CheckUniformOnConsistentNames(allTokenTypes: seq<TokenClass>, has: TokenClass -> bool, kind: ErrorType)
    requires forall i, j ::
               (0 <= i < |allTokenTypes| && 0 <= j < |allTokenTypes| && allTokenTypes[i].name == allTokenTypes[j].name)
               ==> has(allTokenTypes[i]) == has(allTokenTypes[j])
    ensures CheckUniform(allTokenTypes, has, kind).holds <==> forall c :: c in allTokenTypes ==> has(c)
    ensures CheckUniform(allTokenTypes, has, kind).errors != []
            <==> (exists c :: c in allTokenTypes && has(c)) && (exists c :: c in allTokenTypes && !has(c))
  {
    CheckUniformProperties(allTokenTypes, has, kind);
    FirstsAllIff(allTokenTypes, has, true);
    FirstsAllIff(allTokenTypes, has, false);
  }

  /** Every class has a first class of its name, at or before it. */
  lemma FirstIndexOfName(classes: seq<TokenClass>, j: int) returns (i: int)
    requires 0 <= j < |classes|
    ensures FirstOfName(classes, i) && i <= j && classes[i].name == classes[j].name
  {
    i := j;
    while exists k :: 0 <= k < i && classes[k].name == classes[j].name
      invariant 0 <= i <= j && classes[i].name == classes[j].name
      decreases i
    {
      var k :| 0 <= k < i && classes[k].name == classes[j].name;
      i := k;
    }
  }

  /** checkLazyMode on the lazy class A and the non-lazy class B: not lazy,
      one mix error naming A against B. */
  lemma ExampleLazyMix(a: TokenClass, b: TokenClass)
    requires a.name == "A" && b.name == "B" && a.isLazy && !b.isLazy
    ensures CheckLazyMode([a, b]) == ModeCheck(false, [MixError(LexerDefinitionCannotMixLazyAndNotLazy, ["A"], ["B"])])
  {
    var s := [a, b];
    assert s[..1] == [a] && [a][..0] == [];
    assert UniqByName([a]) == [a];
    assert UniqByName(s) == s;
    assert Select([a], IsLazy, true) == [a] && Select([a], IsLazy, false) == [];
    assert Select(s, IsLazy, true) == [a] && Select(s, IsLazy, false) == [b];
    assert b in s && !IsLazy(b);
    assert Names([a]) == ["A"] && Names([b]) == ["B"];
  }

  /** Only the first class of a name is judged: a lazy A followed by a
      non-lazy class also named A is lazy, without error. */
  lemma ExampleLazyFirstOfName(a: TokenClass, a2: TokenClass)
    requires a.name == "A" && a2.name == "A" && a.isLazy && !a2.isLazy
    ensures CheckLazyMode([a, a2]) == ModeCheck(true, [])
  {
    var s := [a, a2];
    assert s[..1] == [a] && [a][..0] == [];
    assert UniqByName([a]) == [a];
    assert UniqByName(s) == [a];
  }
}
