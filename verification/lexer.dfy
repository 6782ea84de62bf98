/** The pattern analysis of src/scan/lexer.ts: the start-of-input wrapping of
    patterns, the pattern-indexed tables of analyzeTokenClasses and of the
    streaming lexer, line terminator counting and the cloning of the empty
    groups. */
module Lexer {
  import opened Base
  import opened LexerModel

  // ---------------------------------------------------------------------------
  // addStartOfInput

  const START_PREFIX: string := "^(?:"
  const START_SUFFIX: string := ")"

  /** The inverse of the wrapping, on source text. */
  function StripStartOfInput(source: string): Option<string> {
    if |source| >= 5 && source[..4] == START_PREFIX && source[|source| - 1..] == START_SUFFIX
    then Some(source[4..|source| - 1])
    else None
  }

  /** `addStartOfInput`: the pattern inside a non-capturing group anchored at
      the start of input; of the flags only ignore-case survives. */
  function AddStartOfInput(pattern: Regex): (r: Regex)
    ensures r.ignoreCase == pattern.ignoreCase && !r.multiline && !r.global
    ensures StripStartOfInput(r.source) == Some(pattern.source)
  {
    var source := START_PREFIX + pattern.source + START_SUFFIX;
    assert source[..4] == START_PREFIX && source[|source| - 1..] == START_SUFFIX;
    assert source[4..|source| - 1] == pattern.source;
    Regex(source, pattern.ignoreCase, false, false)
  }

  /** The flags in the order `RegExp.prototype.flags` lists them. */
  function Flags(r: Regex): string {
    (if r.global then "g" else "") + (if r.ignoreCase then "i" else "") + (if r.multiline then "m" else "")
  }

  /** `RegExp.prototype.toString`, the text a pattern becomes as an object key. */
  function PatternKey(r: Regex): string {
    "/" + r.source + "/" + Flags(r)
  }

  /** Two wrapped patterns get the same object key exactly when their
      originals have the same source and the same ignore-case flag. */
  lemma WrappedKeyInjective(p: Regex, q: Regex)
    ensures PatternKey(AddStartOfInput(p)) == PatternKey(AddStartOfInput(q))
            <==> p.source == q.source && p.ignoreCase == q.ignoreCase
  {
    WrappedKeyParts(p);
    WrappedKeyParts(q);
  }

  /** Where the original source and the ignore-case flag sit in the key of a
      wrapped pattern. */
  lemma WrappedKeyParts(p: Regex)
    ensures var k := PatternKey(AddStartOfInput(p));
            && |k| == |p.source| + 7 + (if p.ignoreCase then 1 else 0)
            && k[5..5 + |p.source|] == p.source
            && k[|k| - 1] == (if p.ignoreCase then 'i' else '/')
  {
    var w := AddStartOfInput(p);
    var k := PatternKey(w);
    assert w.source == START_PREFIX + p.source + START_SUFFIX;
    assert k == "/^(?:" + p.source + ")/" + Flags(w);
    assert Flags(w) == (if p.ignoreCase then "i" else "");
  }

  /** The test `/\\n|\\r|\\s/`: a backslash followed by `n`, `r` or `s`, the
      escapes by which a pattern may match a line terminator. */
  predicate CanLineTerminator(source: string) {
    |source| >= 2 && ((source[0] == '\\' && source[1] in "nrs") || CanLineTerminator(source[1..]))
  }

  /** The test finds a backslash followed by `n`, `r` or `s` anywhere. */
  lemma {:induction false} CanLineTerminatorIff(source: string)
    ensures CanLineTerminator(source) <==> exists i :: 0 <= i < |source| - 1 && source[i] == '\\' && source[i + 1] in "nrs"
  {
    if |source| >= 2 {
      CanLineTerminatorIff(source[1..]);
      assert forall i :: 0 <= i < |source| - 1 ==> source[1..][i] == source[i + 1];
    }
  }

  /** The wrapping neither adds nor hides such an escape. */
  lemma WrappingKeepsLineTerminator(p: Regex)
    ensures CanLineTerminator(AddStartOfInput(p).source) <==> CanLineTerminator(p.source)
  {
    var s, w := p.source, AddStartOfInput(p).source;
    CanLineTerminatorIff(s);
    CanLineTerminatorIff(w);
    assert forall k :: 0 <= k < |s| ==> w[k + 4] == s[k];
    if CanLineTerminator(w) {
      var i :| 0 <= i < |w| - 1 && w[i] == '\\' && w[i + 1] in "nrs";
      assert 4 <= i && i + 1 < |w| - 1;
      assert s[i - 4] == '\\' && s[i - 3] in "nrs";
    }
    if CanLineTerminator(s) {
      var i :| 0 <= i < |s| - 1 && s[i] == '\\' && s[i + 1] in "nrs";
      assert w[i + 4] == '\\' && w[i + 5] in "nrs";
    }
  }

  /** A pattern's group: None for SKIPPED, the name for any other string,
      "default" when the property is absent or undefined; any other value
      is the "non exhaustive match" error. */
  function GroupOf(group: GroupValue): (r: Result<Option<string>>)
    ensures r.Ok? <==> !group.GroupNA? && !group.GroupOther?
    ensures r == Ok(None) <==> group == GroupString(SKIPPED)
    ensures r.Ok? && r.value.Some? ==> r.value.value == (if group.GroupString? then group.groupName else "default")
  {
    match group
    case GroupString(name) => if name == SKIPPED then Ok(None) else Ok(Some(name))
    case GroupAbsent => Ok(Some("default"))
    case GroupUndefined => Ok(Some("default"))
    case _ => Failure("non exhaustive match")
  }

  // ---------------------------------------------------------------------------
  // analyzeTokenClasses

  /** `reject(..., PATTERN === Lexer.NA)`: the classes that take part in
      lexing, in their order. */
  function RelevantClasses(tokenClasses: seq<TokenClass>): (r: seq<TokenClass>)
    ensures |r| <= |tokenClasses|
    ensures forall c :: c in r <==> c in tokenClasses && !c.pattern.NA?
  {
    if tokenClasses == [] then []
    else
      var c := tokenClasses[|tokenClasses| - 1];
      RelevantClasses(tokenClasses[..|tokenClasses| - 1]) + (if c.pattern.NA? then [] else [c])
  }

  predicate AllRegExp(tokenClasses: seq<TokenClass>) {
    forall c :: c in tokenClasses ==> IsRegExp(c.pattern)
  }

  /** The wrapped pattern of each class. */
  function TransformedPatterns(classes: seq<TokenClass>): (r: seq<Regex>)
    requires AllRegExp(classes)
    ensures |r| == |classes|
  {
    seq(|classes|, i requires 0 <= i < |classes| => AddStartOfInput(AsRegex(classes[i].pattern)))
  }

  function PatternKeys(patterns: seq<Regex>): (r: seq<string>)
    ensures |r| == |patterns|
  {
    seq(|patterns|, i requires 0 <= i < |patterns| => PatternKey(patterns[i]))
  }

  /** Each pattern's class, looked up in the object that `zipObject` keys by
      pattern text. */
  function ClassesByPattern(patterns: seq<Regex>, classes: seq<TokenClass>): (r: seq<TokenClass>)
    requires |patterns| == |classes|
    ensures |r| == |patterns|
  {
    var keys := PatternKeys(patterns);
    ZipLastLookup(keys, classes);
    seq(|keys|, i requires 0 <= i < |keys| => ZipLast(keys, classes)[keys[i]])
  }

  /** The group of each class, or the error of the first class that has none. */
  function Groups(classes: seq<TokenClass>): (r: Result<seq<Option<string>>>)
    ensures r.Ok? <==> forall c :: c in classes ==> GroupOf(c.group).Ok?
    ensures r.Ok? ==> |r.value| == |classes|
                      && forall i :: 0 <= i < |classes| ==> r.value[i] == GroupOf(classes[i].group).value
  {
    if classes == [] then Ok([])
    else
      var n := |classes| - 1;
      assert forall c :: c in classes <==> c in classes[..n] || c == classes[n];
      match Groups(classes[..n])
      case Failure(reason) => Failure(reason)
      case Ok(init) =>
        match GroupOf(classes[n].group)
        case Failure(reason) => Failure(reason)
        case Ok(group) => Ok(init + [group])
  }

  /** The position of a class's LONGER_ALT among the classes, -1 when it is
      not one of them; None when the class has no LONGER_ALT. */
  function LongerAltIdx(classes: seq<TokenClass>, c: TokenClass): Option<int> {
    if c.longerAlt.Some? then Some(IndexOf(classes, c.longerAlt.value)) else None
  }

  /** A group's token list; the analysis creates empty arrays, a caller may
      hand over anything. */
  datatype GroupContent = TokenArray(tokens: seq<Token>) | NotArray

  /** The `reduce` that gives every string group, SKIPPED included, an empty
      token list. */
  function EmptyGroups(classes: seq<TokenClass>): (r: map<string, GroupContent>)
    ensures forall g :: g in r <==> exists c :: c in classes && c.group == GroupString(g)
    ensures forall g :: g in r ==> r[g] == TokenArray([])
  {
    if classes == [] then map[]
    else
      var n := |classes| - 1;
      var c := classes[n];
      assert forall d :: d in classes <==> d in classes[..n] || d == c;
      var acc := EmptyGroups(classes[..n]);
      if c.group.GroupString? then acc[c.group.groupName := TokenArray([])] else acc
  }

  /** What `analyzeTokenClasses` returns: tables indexed by pattern position. */
  datatype AnalyzeResult = AnalyzeResult(
    allPatterns: seq<Regex>,
    patternIdxToClass: seq<TokenClass>,
    patternIdxToGroup: seq<Option<string>>,
    patternIdxToLongerAltIdx: seq<Option<int>>,
    patternIdxToCanLineTerminator: seq<bool>,
    patternIdxToPushMode: seq<Option<string>>,
    patternIdxToPopMode: seq<bool>,
    emptyGroups: map<string, GroupContent>)

  /** Every table has one entry per pattern. */
  predicate Aligned(r: AnalyzeResult, n: nat) {
    && |r.allPatterns| == n && |r.patternIdxToClass| == n && |r.patternIdxToGroup| == n
    && |r.patternIdxToLongerAltIdx| == n && |r.patternIdxToCanLineTerminator| == n
    && |r.patternIdxToPushMode| == n && |r.patternIdxToPopMode| == n
  }

  /** The tables built from the relevant classes and their groups. */
  function AnalyzeTables(relevant: seq<TokenClass>, groups: seq<Option<string>>): (r: AnalyzeResult)
    requires AllRegExp(relevant) && |groups| == |relevant|
    ensures Aligned(r, |relevant|)
  {
    var patterns := TransformedPatterns(relevant);
    AnalyzeResult(
      patterns,
      ClassesByPattern(patterns, relevant),
      groups,
      seq(|relevant|, i requires 0 <= i < |relevant| => LongerAltIdx(relevant, relevant[i])),
      seq(|patterns|, i requires 0 <= i < |patterns| => CanLineTerminator(patterns[i].source)),
      seq(|relevant|, i requires 0 <= i < |relevant| => relevant[i].pushMode),
      seq(|relevant|, i requires 0 <= i < |relevant| => relevant[i].popMode),
      EmptyGroups(relevant))
  }

  /** `analyzeTokenClasses`. Every pattern is a RegExp, as the signature of
      `addStartOfInput` demands; a group of the wrong type aborts. */
  function AnalyzeTokenClasses(tokenClasses: seq<TokenClass>): (r: Result<AnalyzeResult>)
    requires AllRegExp(tokenClasses)
    ensures r.Ok? <==> forall c :: c in tokenClasses && !c.pattern.NA? ==> GroupOf(c.group).Ok?
    ensures r.Ok? ==> Aligned(r.value, |RelevantClasses(tokenClasses)|)
  {
    var relevant := RelevantClasses(tokenClasses);
    match Groups(relevant)
    case Failure(reason) => Failure(reason)
    case Ok(groups) => Ok(AnalyzeTables(relevant, groups))
  }

  /** Two classes whose wrapped patterns get the same object key. */
  predicate SamePattern(c: TokenClass, d: TokenClass)
    requires IsRegExp(c.pattern) && IsRegExp(d.pattern)
  {
    AsRegex(c.pattern).source == AsRegex(d.pattern).source
    && AsRegex(c.pattern).ignoreCase == AsRegex(d.pattern).ignoreCase
  }

  /** Row `i` of every table describes relevant class `i`: its wrapped
      pattern, its group, where its LONGER_ALT sits, whether its own pattern
      may match a line terminator, its push mode and its pop flag. */
  lemma AnalyzeRows(tokenClasses: seq<TokenClass>, i: int)
    requires AllRegExp(tokenClasses) && AnalyzeTokenClasses(tokenClasses).Ok?
    requires 0 <= i < |RelevantClasses(tokenClasses)|
    ensures var r, relevant := AnalyzeTokenClasses(tokenClasses).value, RelevantClasses(tokenClasses);
            var c := relevant[i];
            && IsRegExp(c.pattern)
            && StripStartOfInput(r.allPatterns[i].source) == Some(AsRegex(c.pattern).source)
            && r.allPatterns[i].ignoreCase == AsRegex(c.pattern).ignoreCase
            && Ok(r.patternIdxToGroup[i]) == GroupOf(c.group)
            && (r.patternIdxToCanLineTerminator[i] <==> CanLineTerminator(AsRegex(c.pattern).source))
            && r.patternIdxToPushMode[i] == c.pushMode && r.patternIdxToPopMode[i] == c.popMode
            && (r.patternIdxToLongerAltIdx[i].None? <==> c.longerAlt.None?)
            && (r.patternIdxToLongerAltIdx[i].Some? ==>
                  var k := r.patternIdxToLongerAltIdx[i].value;
                  (k == -1 <==> c.longerAlt.value !in relevant) && (k >= 0 ==> k < |relevant| && relevant[k] == c.longerAlt.value))
  {
    var relevant := RelevantClasses(tokenClasses);
    assert relevant[i] in relevant;
    WrappingKeepsLineTerminator(AsRegex(relevant[i].pattern));
  }

  /** The class looked up for pattern `i` is the last class with the same
      pattern text. */
  lemma ClassesByPatternLast(classes: seq<TokenClass>, i: int) returns (j: int)
    requires AllRegExp(classes) && 0 <= i < |classes|
    ensures i <= j < |classes| && ClassesByPattern(TransformedPatterns(classes), classes)[i] == classes[j]
    ensures SamePattern(classes[j], classes[i]) && forall k :: j < k < |classes| ==> !SamePattern(classes[k], classes[i])
  {
    var keys := PatternKeys(TransformedPatterns(classes));
    ZipLastLookup(keys, classes);
    j := LastOccurrence(keys, keys[i]);
    forall k | 0 <= k < |classes|
      ensures keys[k] == keys[i] <==> SamePattern(classes[k], classes[i])
    {
      ClassKey(classes, k);
      ClassKey(classes, i);
      WrappedKeyInjective(AsRegex(classes[k].pattern), AsRegex(classes[i].pattern));
    }
  }

  lemma ClassKey(classes: seq<TokenClass>, k: int)
    requires AllRegExp(classes) && 0 <= k < |classes|
    ensures IsRegExp(classes[k].pattern)
    ensures PatternKeys(TransformedPatterns(classes))[k] == PatternKey(AddStartOfInput(AsRegex(classes[k].pattern)))
  {
    assert classes[k] in classes;
  }

  /** The class of pattern `i` is the LAST relevant class with the same
      pattern text: of two such classes the earlier one is never found. */
  lemma AnalyzePatternClass(tokenClasses: seq<TokenClass>, i: int)
    requires AllRegExp(tokenClasses) && AnalyzeTokenClasses(tokenClasses).Ok?
    requires 0 <= i < |RelevantClasses(tokenClasses)|
    ensures var r, relevant := AnalyzeTokenClasses(tokenClasses).value, RelevantClasses(tokenClasses);
            exists j :: i <= j < |relevant| && r.patternIdxToClass[i] == relevant[j] && SamePattern(relevant[j], relevant[i])
                        && forall k :: j < k < |relevant| ==> !SamePattern(relevant[k], relevant[i])
  {
    var relevant := RelevantClasses(tokenClasses);
    assert AllRegExp(relevant);
    assert AnalyzeTokenClasses(tokenClasses).value.patternIdxToClass
           == ClassesByPattern(TransformedPatterns(relevant), relevant);
    var j := ClassesByPatternLast(relevant, i);
  }

  /** With no two relevant classes sharing a pattern, each pattern maps back
      to its own class. */
  lemma AnalyzeDistinctPatterns(tokenClasses: seq<TokenClass>)
    requires AllRegExp(tokenClasses) && AnalyzeTokenClasses(tokenClasses).Ok?
    requires DistinctPatterns(RelevantClasses(tokenClasses))
    ensures AnalyzeTokenClasses(tokenClasses).value.patternIdxToClass == RelevantClasses(tokenClasses)
  {
    var relevant := RelevantClasses(tokenClasses);
    assert AllRegExp(relevant);
    var byPattern := ClassesByPattern(TransformedPatterns(relevant), relevant);
    assert AnalyzeTokenClasses(tokenClasses).value.patternIdxToClass == byPattern;
    forall i | 0 <= i < |relevant|
      ensures byPattern[i] == relevant[i]
    {
      var j := ClassesByPatternLast(relevant, i);
      DistinctLast(relevant, i, j);
    }
  }

  /** No two classes share a pattern. */
  predicate DistinctPatterns(classes: seq<TokenClass>)
    requires AllRegExp(classes)
  {
    forall i, j :: 0 <= i < j < |classes| ==> !SamePattern(classes[i], classes[j])
  }

  lemma DistinctLast(classes: seq<TokenClass>, i: int, j: int)
    requires AllRegExp(classes) && DistinctPatterns(classes) && 0 <= i <= j < |classes|
    requires SamePattern(classes[j], classes[i])
    ensures i == j
  {
  }

  /** Every string group of a relevant class, SKIPPED included, and no other
      name, gets an empty token list. */
  lemma AnalyzeEmptyGroups(tokenClasses: seq<TokenClass>)
    requires AllRegExp(tokenClasses) && AnalyzeTokenClasses(tokenClasses).Ok?
    ensures var groups := AnalyzeTokenClasses(tokenClasses).value.emptyGroups;
            && (forall g :: g in groups <==> exists c :: c in tokenClasses && !c.pattern.NA? && c.group == GroupString(g))
            && (forall g :: g in groups ==> groups[g] == TokenArray([]))
  {
  }

  // ---------------------------------------------------------------------------
  // analyzeTokenClassesForStreamingLexer: the pattern indexing

  /** What the streaming analysis returns. */
  datatype StreamingResult = StreamingResult(
    tokenNameToPattern: map<string, Regex>,
    tokenNameToGroup: map<string, Option<string>>,
    skippedPatterns: seq<Regex>,
    idxToPattern: seq<Regex>)

  /** What the analysis writes onto a class: its position among all classes
      and the wrapped pattern found under its name, if any. */
  datatype PatternCache = PatternCache(idx: nat, transformedPattern: Option<Regex>)

  function TokenNames(classes: seq<TokenClass>): (r: seq<string>)
    ensures |r| == |classes|
  {
    seq(|classes|, i requires 0 <= i < |classes| => classes[i].name)
  }

  /** The names listed are those of the classes. */
  lemma NamesOf(classes: seq<TokenClass>)
    ensures forall k :: k in TokenNames(classes) <==> exists c :: c in classes && c.name == k
  {
    var names := TokenNames(classes);
    forall k | k in names
      ensures exists c :: c in classes && c.name == k
    {
      var i :| 0 <= i < |names| && names[i] == k;
      assert classes[i] in classes;
    }
    forall c | c in classes
      ensures c.name in names
    {
      var i :| 0 <= i < |classes| && classes[i] == c;
      assert names[i] == c.name;
    }
  }

  function Lookup(m: map<string, Regex>, k: string): Option<Regex> {
    if k in m then Some(m[k]) else None
  }

  /** The `reduce` collecting, in order, the pattern stored under the name of
      each SKIPPED class. */
  function SkippedPatterns(classes: seq<TokenClass>, nameToPattern: map<string, Regex>): seq<Regex>
    requires forall c :: c in classes ==> c.name in nameToPattern
  {
    if classes == [] then []
    else
      var c := classes[|classes| - 1];
      SkippedPatterns(classes[..|classes| - 1], nameToPattern)
      + (if c.group == GroupString(SKIPPED) then [nameToPattern[c.name]] else [])
  }

  /** The name-keyed tables built from the relevant classes and their groups. */
  function StreamingTables(relevant: seq<TokenClass>, groups: seq<Option<string>>): (r: StreamingResult)
    requires AllRegExp(relevant) && |groups| == |relevant|
    ensures |r.idxToPattern| == |relevant|
    ensures r.tokenNameToPattern.Keys == r.tokenNameToGroup.Keys
    ensures forall k :: k in r.tokenNameToPattern <==> exists c :: c in relevant && c.name == k
  {
    var names := TokenNames(relevant);
    var patterns := TransformedPatterns(relevant);
    var nameToPattern := ZipLast(names, patterns);
    ZipLastLookup(names, patterns);
    ZipLastLookup(names, groups);
    NamesOf(relevant);
    StreamingResult(
      nameToPattern,
      ZipLast(names, groups),
      SkippedPatterns(relevant, nameToPattern),
      seq(|relevant|, i requires 0 <= i < |relevant| => nameToPattern[relevant[i].name]))
  }

  /** The tables of `analyzeTokenClassesForStreamingLexer`; a group of the
      wrong type aborts. */
  function StreamingAnalysis(allTokenClasses: seq<TokenClass>): (r: Result<StreamingResult>)
    requires AllRegExp(allTokenClasses)
    ensures r.Ok? <==> forall c :: c in allTokenClasses && !c.pattern.NA? ==> GroupOf(c.group).Ok?
    ensures r.Ok? ==> var relevant := RelevantClasses(allTokenClasses);
                      && |r.value.idxToPattern| == |relevant|
                      && (forall k :: k in r.value.tokenNameToPattern <==> exists c :: c in relevant && c.name == k)
  {
    var relevant := RelevantClasses(allTokenClasses);
    match Groups(relevant)
    case Failure(reason) => Failure(reason)
    case Ok(groups) => Ok(StreamingTables(relevant, groups))
  }

  /** `analyzeTokenClassesForStreamingLexer`: after the tables are built, the
      loop over ALL classes, NA ones included, writes each class's position
      and wrapped pattern into the class; `cache[i]` holds what class `i`
      receives. */
  method AnalyzeTokenClassesForStreamingLexer(allTokenClasses: seq<TokenClass>, cache: array<PatternCache>)
    returns (r: Result<StreamingResult>)
    requires AllRegExp(allTokenClasses) && cache.Length == |allTokenClasses|
    modifies cache
    ensures r == StreamingAnalysis(allTokenClasses)
    ensures r.Failure? ==> cache[..] == old(cache[..])
    ensures r.Ok? ==> forall i :: 0 <= i < cache.Length ==>
              cache[i] == PatternCache(i, Lookup(r.value.tokenNameToPattern, allTokenClasses[i].name))
    ensures r.Ok? ==> forall i :: 0 <= i < cache.Length ==>
              (cache[i].transformedPattern.None?
               <==> forall c :: c in RelevantClasses(allTokenClasses) ==> c.name != allTokenClasses[i].name)
  {
    r := StreamingAnalysis(allTokenClasses);
    if r.Failure? {
      return;
    }
    var nameToPattern := r.value.tokenNameToPattern;
    FillPatternCache(allTokenClasses, nameToPattern, cache);
    var relevant := RelevantClasses(allTokenClasses);
    forall i | 0 <= i < cache.Length
      ensures cache[i].transformedPattern.None? <==> forall c :: c in relevant ==> c.name != allTokenClasses[i].name
    {
      LookupMiss(nameToPattern, relevant, allTokenClasses[i].name);
    }
  }

  /** The loop writing each class's position and wrapped pattern. */
  method FillPatternCache(allTokenClasses: seq<TokenClass>, nameToPattern: map<string, Regex>, cache: array<PatternCache>)
    requires cache.Length == |allTokenClasses|
    modifies cache
    ensures forall i :: 0 <= i < cache.Length ==> cache[i] == PatternCache(i, Lookup(nameToPattern, allTokenClasses[i].name))
  {
    var idx := 0;
    while idx < |allTokenClasses|
      invariant 0 <= idx <= |allTokenClasses|
      invariant forall i :: 0 <= i < idx ==> cache[i] == PatternCache(i, Lookup(nameToPattern, allTokenClasses[i].name))
    {
      cache[idx] := PatternCache(idx, Lookup(nameToPattern, allTokenClasses[idx].name));
      idx := idx + 1;
    }
  }

  /** A name misses the pattern table exactly when no relevant class has it. */
  lemma LookupMiss(nameToPattern: map<string, Regex>, relevant: seq<TokenClass>, name: string)
    requires forall k :: k in nameToPattern <==> exists c :: c in relevant && c.name == k
    ensures Lookup(nameToPattern, name).None? <==> forall c :: c in relevant ==> c.name != name
  {
  }

  lemma TablesIdxToPattern(relevant: seq<TokenClass>, groups: seq<Option<string>>, i: int) returns (j: int)
    requires AllRegExp(relevant) && |groups| == |relevant| && 0 <= i < |relevant|
    ensures i <= j < |relevant| && relevant[j].name == relevant[i].name
    ensures forall k :: j < k < |relevant| ==> relevant[k].name != relevant[i].name
    ensures StreamingTables(relevant, groups).idxToPattern[i] == TransformedPatterns(relevant)[j]
  {
    var names, patterns := TokenNames(relevant), TransformedPatterns(relevant);
    assert StreamingTables(relevant, groups).idxToPattern[i] == ZipLast(names, patterns)[names[i]];
    ZipLastLookup(names, patterns);
    j := LastOccurrence(names, names[i]);
    assert names[j] == relevant[j].name;
    forall k | j < k < |relevant|
      ensures relevant[k].name != relevant[i].name
    {
      assert names[k] == relevant[k].name;
    }
  }

  /** Position `i` of `idxToPattern` holds the wrapped pattern of the LAST
      relevant class with the name of class `i`. */
  lemma StreamingIdxToPattern(allTokenClasses: seq<TokenClass>, i: int) returns (j: int)
    requires AllRegExp(allTokenClasses) && StreamingAnalysis(allTokenClasses).Ok?
    requires 0 <= i < |RelevantClasses(allTokenClasses)|
    ensures var relevant := RelevantClasses(allTokenClasses);
            && i <= j < |relevant| && relevant[j].name == relevant[i].name
            && (forall k :: j < k < |relevant| ==> relevant[k].name != relevant[i].name)
            && StreamingAnalysis(allTokenClasses).value.idxToPattern[i] == TransformedPatterns(relevant)[j]
  {
    var relevant := RelevantClasses(allTokenClasses);
    j := TablesIdxToPattern(relevant, Groups(relevant).value, i);
  }

  /** The SKIPPED classes, in order. */
  function SkippedClasses(classes: seq<TokenClass>): (r: seq<TokenClass>)
    ensures forall c :: c in r <==> c in classes && c.group == GroupString(SKIPPED)
  {
    if classes == [] then []
    else
      var c := classes[|classes| - 1];
      SkippedClasses(classes[..|classes| - 1]) + (if c.group == GroupString(SKIPPED) then [c] else [])
  }

  lemma {:induction false} SkippedPatternsOf(classes: seq<TokenClass>, nameToPattern: map<string, Regex>)
    requires AllRegExp(classes)
    requires forall c :: c in classes ==>
               c.name in nameToPattern && nameToPattern[c.name] == AddStartOfInput(AsRegex(c.pattern))
    ensures AllRegExp(SkippedClasses(classes))
    ensures SkippedPatterns(classes, nameToPattern) == TransformedPatterns(SkippedClasses(classes))
  {
    if classes != [] {
      var n := |classes| - 1;
      var init, c := classes[..n], classes[n];
      assert forall d :: d in init ==> d in classes;
      assert AllRegExp(init) && c in classes;
      SkippedPatternsOf(init, nameToPattern);
      var skipped := SkippedClasses(init);
      if c.group == GroupString(SKIPPED) {
        assert SkippedClasses(classes) == skipped + [c];
        assert SkippedPatterns(classes, nameToPattern) == SkippedPatterns(init, nameToPattern) + [nameToPattern[c.name]];
        TransformedAppend(skipped, c);
      } else {
        assert SkippedClasses(classes) == skipped;
        assert SkippedPatterns(classes, nameToPattern) == SkippedPatterns(init, nameToPattern);
      }
    }
  }

  lemma TransformedAppend(classes: seq<TokenClass>, c: TokenClass)
    requires AllRegExp(classes) && IsRegExp(c.pattern)
    ensures AllRegExp(classes + [c])
    ensures TransformedPatterns(classes + [c]) == TransformedPatterns(classes) + [AddStartOfInput(AsRegex(c.pattern))]
  {
    assert forall d :: d in classes + [c] ==> d in classes || d == c;
  }

  /** With distinct names every class is the last of its name. */
  lemma DistinctNamesLast(relevant: seq<TokenClass>)
    requires forall i, j :: 0 <= i < j < |relevant| ==> relevant[i].name != relevant[j].name
    ensures forall i :: 0 <= i < |relevant| ==> LastOf(TokenNames(relevant), i)
  {
    var names := TokenNames(relevant);
    forall i, j | 0 <= i < j < |relevant|
      ensures names[j] != names[i]
    {
      assert names[i] == relevant[i].name && names[j] == relevant[j].name;
    }
  }

  lemma TablesAgreeOnPatterns(relevant: seq<TokenClass>, groups: seq<Option<string>>)
    requires AllRegExp(relevant) && |groups| == |relevant|
    requires forall i, j :: 0 <= i < j < |relevant| ==> relevant[i].name != relevant[j].name
    ensures StreamingTables(relevant, groups).idxToPattern == AnalyzeTables(relevant, groups).allPatterns
  {
    var names, patterns := TokenNames(relevant), TransformedPatterns(relevant);
    var idxToPattern := StreamingTables(relevant, groups).idxToPattern;
    assert forall i :: 0 <= i < |relevant| ==> idxToPattern[i] == ZipLast(names, patterns)[names[i]];
    ZipLastLookup(names, patterns);
    DistinctNamesLast(relevant);
  }

  lemma TablesAgreeOnGroups(relevant: seq<TokenClass>, groups: seq<Option<string>>)
    requires AllRegExp(relevant) && |groups| == |relevant|
    requires forall i, j :: 0 <= i < j < |relevant| ==> relevant[i].name != relevant[j].name
    ensures forall i :: 0 <= i < |relevant| ==>
              StreamingTables(relevant, groups).tokenNameToGroup[relevant[i].name] == AnalyzeTables(relevant, groups).patternIdxToGroup[i]
  {
    var names := TokenNames(relevant);
    assert StreamingTables(relevant, groups).tokenNameToGroup == ZipLast(names, groups);
    assert AnalyzeTables(relevant, groups).patternIdxToGroup == groups;
    ZipLastLookup(names, groups);
    DistinctNamesLast(relevant);
    assert forall i :: 0 <= i < |relevant| ==> names[i] == relevant[i].name;
  }

  lemma TablesAgreeOnSkipped(relevant: seq<TokenClass>, groups: seq<Option<string>>)
    requires AllRegExp(relevant) && |groups| == |relevant|
    requires forall i, j :: 0 <= i < j < |relevant| ==> relevant[i].name != relevant[j].name
    ensures AllRegExp(SkippedClasses(relevant))
    ensures StreamingTables(relevant, groups).skippedPatterns == TransformedPatterns(SkippedClasses(relevant))
  {
    var nameToPattern := ZipLast(TokenNames(relevant), TransformedPatterns(relevant));
    NameToPatternOfDistinct(relevant);
    assert StreamingTables(relevant, groups).skippedPatterns == SkippedPatterns(relevant, nameToPattern);
    SkippedPatternsOf(relevant, nameToPattern);
  }

  /** With distinct names each class's name maps to its own wrapped pattern. */
  lemma NameToPatternOfDistinct(relevant: seq<TokenClass>)
    requires AllRegExp(relevant)
    requires forall i, j :: 0 <= i < j < |relevant| ==> relevant[i].name != relevant[j].name
    ensures var nameToPattern := ZipLast(TokenNames(relevant), TransformedPatterns(relevant));
            forall c :: c in relevant ==>
              c.name in nameToPattern && nameToPattern[c.name] == AddStartOfInput(AsRegex(c.pattern))
  {
    var names, patterns := TokenNames(relevant), TransformedPatterns(relevant);
    var nameToPattern := ZipLast(names, patterns);
    ZipLastLookup(names, patterns);
    DistinctNamesLast(relevant);
    forall c | c in relevant
      ensures c.name in nameToPattern && nameToPattern[c.name] == AddStartOfInput(AsRegex(c.pattern))
    {
      var i :| 0 <= i < |relevant| && relevant[i] == c;
      assert names[i] == c.name && LastOf(names, i);
    }
  }

  lemma StreamingIsTables(allTokenClasses: seq<TokenClass>)
    requires AllRegExp(allTokenClasses) && StreamingAnalysis(allTokenClasses).Ok?
    ensures var relevant := RelevantClasses(allTokenClasses);
            && AllRegExp(relevant) && Groups(relevant).Ok? && |Groups(relevant).value| == |relevant|
            && StreamingAnalysis(allTokenClasses) == Ok(StreamingTables(relevant, Groups(relevant).value))
            && AnalyzeTokenClasses(allTokenClasses) == Ok(AnalyzeTables(relevant, Groups(relevant).value))
  {
  }

  /** With distinct names among the relevant classes the name-keyed tables
      agree with `analyzeTokenClasses`: the same patterns in the same order,
      the same groups, and the skipped patterns are those of the SKIPPED
      classes in order. */
  lemma StreamingAgreesWithAnalyze(allTokenClasses: seq<TokenClass>)
    requires AllRegExp(allTokenClasses) && StreamingAnalysis(allTokenClasses).Ok?
    requires var relevant := RelevantClasses(allTokenClasses);
             forall i, j :: 0 <= i < j < |relevant| ==> relevant[i].name != relevant[j].name
    ensures AnalyzeTokenClasses(allTokenClasses).Ok?
    ensures StreamingAnalysis(allTokenClasses).value.idxToPattern == AnalyzeTokenClasses(allTokenClasses).value.allPatterns
    ensures forall i :: 0 <= i < |RelevantClasses(allTokenClasses)| ==>
              StreamingAnalysis(allTokenClasses).value.tokenNameToGroup[RelevantClasses(allTokenClasses)[i].name]
              == AnalyzeTokenClasses(allTokenClasses).value.patternIdxToGroup[i]
    ensures AllRegExp(SkippedClasses(RelevantClasses(allTokenClasses)))
    ensures StreamingAnalysis(allTokenClasses).value.skippedPatterns
            == TransformedPatterns(SkippedClasses(RelevantClasses(allTokenClasses)))
  {
    StreamingIsTables(allTokenClasses);
    var relevant := RelevantClasses(allTokenClasses);
    var groups := Groups(relevant).value;
    TablesAgreeOnPatterns(relevant, groups);
    TablesAgreeOnGroups(relevant, groups);
    TablesAgreeOnSkipped(relevant, groups);
  }

  // ---------------------------------------------------------------------------
  // countLineTerminators

  /** Position `i` ends a line: a `\n`, or a `\r` not immediately followed
      by `\n`. */
  predicate EndsLineAt(text: string, i: int)
    requires 0 <= i < |text|
  {
    text[i] == '\n' || (text[i] == '\r' && !(i + 1 < |text| && text[i + 1] == '\n'))
  }

  /** The number of line terminators in `text`, a `\r\n` pair counting once. */
  function LineTerminators(text: string): (n: nat)
    ensures n <= |text|
  {
    if text == [] then 0
    else (if EndsLineAt(text, 0) then 1 else 0) + LineTerminators(text[1..])
  }

  method CountLineTerminators(text: string) returns (lineTerminators: nat)
    ensures lineTerminators == LineTerminators(text)
  {
    lineTerminators := 0;
    var currOffset := 0;
    while currOffset < |text|
      invariant 0 <= currOffset <= |text|
      invariant lineTerminators + LineTerminators(text[currOffset..]) == LineTerminators(text)
    {
      var c := text[currOffset];
      assert text[currOffset..][1..] == text[currOffset + 1..];
      if c == '\n' {
        lineTerminators := lineTerminators + 1;
      } else if c == '\r' {
        if currOffset != |text| - 1 && text[currOffset + 1] == '\n' {
          // the `\n` that follows counts for the pair
        } else {
          lineTerminators := lineTerminators + 1;
        }
      }
      currOffset := currOffset + 1;
    }
  }

  /** A `\r` ending `a` and a `\n` starting `b` form one pair in `a + b`. */
  predicate SplitsPair(a: string, b: string) {
    |a| > 0 && |b| > 0 && a[|a| - 1] == '\r' && b[0] == '\n'
  }

  /** Counting two pieces separately gives the count of the whole text, but
      for a `\r\n` pair split between them, which is then counted twice. */
  lemma {:induction false} LineTerminatorsConcat(a: string, b: string)
    ensures LineTerminators(a + b) == LineTerminators(a) + LineTerminators(b) - (if SplitsPair(a, b) then 1 else 0)
  {
    if a == [] {
      assert a + b == b;
    } else {
      assert (a + b)[1..] == a[1..] + b;
      LineTerminatorsConcat(a[1..], b);
      if |a| == 1 {
        assert a[1..] == [];
      } else {
        assert (a + b)[1] == a[1];
        assert a[1..][|a| - 2] == a[|a| - 1];
      }
    }
  }

  lemma ExampleLineEndings()
    ensures LineTerminators("\r\n") == 1
    ensures LineTerminators("\n\r") == 2
    ensures LineTerminators("a\rb\n") == 2
  {
    assert "\r\n"[1..] == "\n";
    assert "\n\r"[1..] == "\r";
    assert "a\rb\n"[1..] == "\rb\n";
    assert "\rb\n"[1..] == "b\n";
    assert "b\n"[1..] == "\n";
  }

  // ---------------------------------------------------------------------------
  // cloneEmptyGroups

  /** `cloneEmptyGroups`: a fresh empty token list for every group, aborting
      when some group does not hold an array. */
  method CloneEmptyGroups(emptyGroups: map<string, GroupContent>) returns (r: Result<map<string, GroupContent>>)
    ensures r.Ok? <==> forall k :: k in emptyGroups ==> emptyGroups[k].TokenArray?
    ensures r.Ok? ==> r.value == map k | k in emptyGroups :: TokenArray([])
  {
    var clonedResult: map<string, GroupContent> := map[];
    var groupKeys := emptyGroups.Keys;
    while groupKeys != {}
      invariant groupKeys <= emptyGroups.Keys
      invariant clonedResult == map k | k in emptyGroups.Keys - groupKeys :: TokenArray([])
      invariant forall k :: k in emptyGroups.Keys - groupKeys ==> emptyGroups[k].TokenArray?
      decreases |groupKeys|
    {
      var currKey :| currKey in groupKeys;
      if emptyGroups[currKey].TokenArray? {
        clonedResult := clonedResult[currKey := TokenArray([])];
      } else {
        return Failure("non exhaustive match");
      }
      groupKeys := groupKeys - {currKey};
    }
    r := Ok(clonedResult);
  }

  /** Cloning the groups `analyzeTokenClasses` made succeeds and gives back
      an equal map. */
  lemma CloneOfAnalyzedGroups(tokenClasses: seq<TokenClass>)
    requires AllRegExp(tokenClasses) && AnalyzeTokenClasses(tokenClasses).Ok?
    ensures var groups := AnalyzeTokenClasses(tokenClasses).value.emptyGroups;
            && (forall k :: k in groups ==> groups[k].TokenArray?)
            && (map k | k in groups :: TokenArray([])) == groups
  {
    AnalyzeEmptyGroups(tokenClasses);
  }
}
