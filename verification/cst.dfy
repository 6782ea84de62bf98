/** The CST shape analysis (buildIsCollection and its batch form) and the CST
    child slots (initChildrenDictionary, addTerminalToCst, addNoneTerminalToCst)
    of src/parse/cst/cst.ts. */
module Cst {

  import Base
  import opened CstModel

  // ---------------------------------------------------------------------------
  // The work stack of buildIsCollection.

  /** An entry of `possiblePaths`: a path state, or the bare EXIT_ITERATION
      string that the repetition branches push as if it were a path. */
  datatype WorkItem =
    | Path(def: seq<Production>, inIteration: seq<bool>, currResult: map<string, nat>)
    | ExitIteration

  /** The number of pops a path state causes, itself included. */
  function Cost(def: seq<Production>): nat
    decreases DefSize(def), 1, 0
  {
    if def == [] then 1
    else
      DefSizeCons(def);
      var rest := def[1..];
      if IsKey(def[0]) then 1 + Cost(rest)
      else
        match def[0]
        case Option(d) => DefSizeAppend(d, rest); 1 + Cost(d + rest)
        case Repetition(d) => DefSizeAppend(d, rest); 2 + Cost(d + rest)
        case RepetitionMandatory(d) => DefSizeAppend(d, rest); 2 + Cost(d + rest)
        case RepetitionWithSeparator(d, s) =>
          RewriteSize(d, s, rest); 2 + Cost([SeparatorRewrite(d, s)] + rest)
        case RepetitionMandatoryWithSeparator(d, s) =>
          RewriteSize(d, s, rest); 2 + Cost([SeparatorRewrite(d, s)] + rest)
        case Alternation(alts) => 1 + CostAlts(alts, rest)
        case Flat(d) => DefSizeAppend(d, rest); 1 + Cost(d + rest)
  }

  function CostAlts(alts: seq<Alternative>, rest: seq<Production>): nat
    decreases AltsSize(alts) + DefSize(rest), 2, |alts|
  {
    if alts == [] then 0
    else
      DefSizeAppend(alts[0].definition, rest);
      Cost(alts[0].definition + rest) + CostAlts(alts[1..], rest)
  }

  function ItemCost(item: WorkItem): nat {
    match item
    case Path(def, _, _) => Cost(def)
    case ExitIteration => 1
  }

  /** The keys a work item still marks; EXIT_ITERATION marks none (it is
      skipped when popped). */
  function ItemMarks(item: WorkItem, iter: bool): set<string> {
    match item
    case Path(def, _, counts) => Explore(def, counts, iter)
    case ExitIteration => {}
  }

  function StackCost(stack: seq<WorkItem>): nat {
    if stack == [] then 0 else StackCost(stack[..|stack| - 1]) + ItemCost(stack[|stack| - 1])
  }

  function StackMarks(stack: seq<WorkItem>, iter: bool): set<string> {
    if stack == [] then {} else StackMarks(stack[..|stack| - 1], iter) + ItemMarks(stack[|stack| - 1], iter)
  }

  /** Cost and marks of a path that starts with a Terminal or NonTerminal. */
  lemma KeyStep(def: seq<Production>, counts: map<string, nat>, iter: bool)
    requires def != [] && IsKey(def[0])
    ensures Cost(def) == 1 + Cost(def[1..])
    ensures var k := Key(def[0]); var found := Count(counts, k) + 1;
            Explore(def, counts, iter) == (if found > 1 || iter then {k} else {}) + Explore(def[1..], counts[k := found], iter)
  {
  }

  lemma Pushed(stack: seq<WorkItem>, item: WorkItem, iter: bool)
    ensures StackCost(stack + [item]) == StackCost(stack) + ItemCost(item)
    ensures StackMarks(stack + [item], iter) == StackMarks(stack, iter) + ItemMarks(item, iter)
  {
    assert (stack + [item])[..|stack|] == stack;
  }

  /** The path states the alternation branch pushes, in push order: the last
      alternative first, so that the first alternative is on top. */
  ghost function AltItems(alts: seq<Alternative>, rest: seq<Production>,
                          inIteration: seq<bool>, counts: map<string, nat>): seq<WorkItem>
  {
    if alts == [] then []
    else AltItems(alts[1..], rest, inIteration, counts) + [Path(alts[0].definition + rest, inIteration, counts)]
  }

  lemma {:induction false} AltItemsPushed(stack: seq<WorkItem>, alts: seq<Alternative>, rest: seq<Production>,
                                          inIteration: seq<bool>, counts: map<string, nat>, iter: bool)
    ensures StackCost(stack + AltItems(alts, rest, inIteration, counts)) == StackCost(stack) + CostAlts(alts, rest)
    ensures StackMarks(stack + AltItems(alts, rest, inIteration, counts), iter)
            == StackMarks(stack, iter) + ExploreAlts(alts, rest, counts, iter)
    decreases |alts|
  {
    if alts == [] {
      assert stack + [] == stack;
    } else {
      var prev := AltItems(alts[1..], rest, inIteration, counts);
      var top := Path(alts[0].definition + rest, inIteration, counts);
      assert stack + AltItems(alts, rest, inIteration, counts) == (stack + prev) + [top];
      Pushed(stack + prev, top, iter);
      AltItemsPushed(stack, alts[1..], rest, inIteration, counts, iter);
    }
  }

  /** The alternation branch: one path state per alternative, pushed from the
      last alternative to the first, so that they are popped in declared order. */
  method PushAlternatives(possiblePaths: seq<WorkItem>, alts: seq<Alternative>, rest: seq<Production>,
                          inIteration: seq<bool>, currResult: map<string, nat>)
    returns (pushed: seq<WorkItem>)
    ensures pushed == possiblePaths + AltItems(alts, rest, inIteration, currResult)
    ensures |pushed| == |possiblePaths| + |alts|
    ensures forall j :: 0 <= j < |alts| ==>
              pushed[|pushed| - 1 - j] == Path(alts[j].definition + rest, inIteration, currResult)
  {
    pushed := possiblePaths;
    var i := |alts|;
    while i > 0
      invariant 0 <= i <= |alts|
      invariant pushed == possiblePaths + AltItems(alts[i..], rest, inIteration, currResult)
      invariant |pushed| == |possiblePaths| + |alts| - i
      invariant forall j :: i <= j < |alts| ==>
                  pushed[|pushed| - 1 - (j - i)] == Path(alts[j].definition + rest, inIteration, currResult)
    {
      i := i - 1;
      assert alts[i..][1..] == alts[i + 1..];
      pushed := pushed + [Path(alts[i].definition + rest, inIteration, currResult)];
    }
  }

  // ---------------------------------------------------------------------------
  // IsCollectionInitVisitor: seeds every Terminal and NonTerminal key with NONE.

  function Seed(keys: set<string>): map<string, Subtype> {
    map k | k in keys :: NONE
  }

  class IsCollectionInitVisitor {
    var result: map<string, Subtype>

    constructor ()
      ensures result == map[]
    {
      result := map[];
    }

    method VisitNonTerminal(node: Production)
      requires node.NonTerminal?
      modifies this
      ensures result == old(result)[node.nonTerminalName := NONE]
    {
      result := result[node.nonTerminalName := NONE];
    }

    method VisitTerminal(node: Production)
      requires node.Terminal?
      modifies this
      ensures result == old(result)[node.terminalName := NONE]
    {
      result := result[node.terminalName := NONE];
    }

    /** The depth-first walk `accept` performs over a production and its
        children. */
    method Visit(p: Production)
      modifies this
      ensures result == old(result) + Seed(PKeys(p, false))
      decreases p
    {
      match p
      case Terminal(_) => VisitTerminal(p);
      case NonTerminal(_) => VisitNonTerminal(p);
      case Option(d) => VisitDefinition(d);
      case Repetition(d) => VisitDefinition(d);
      case RepetitionMandatory(d) => VisitDefinition(d);
      case RepetitionWithSeparator(d, _) => VisitDefinition(d);
      case RepetitionMandatoryWithSeparator(d, _) => VisitDefinition(d);
      case Alternation(alts) => VisitAlternatives(alts);
      case Flat(d) => VisitDefinition(d);
    }

    method VisitDefinition(def: seq<Production>)
      modifies this
      ensures result == old(result) + Seed(Keys(def, false))
      decreases def
    {
      if def != [] {
        assert def[0] in def;
        Visit(def[0]);
        VisitDefinition(def[1..]);
      }
    }

    method VisitAlternatives(alts: seq<Alternative>)
      modifies this
      ensures result == old(result) + Seed(AltsKeys(alts, false))
      decreases alts
    {
      if alts != [] {
        assert alts[0] in alts;
        VisitDefinition(alts[0].definition);
        VisitAlternatives(alts[1..]);
      }
    }
  }

  // ---------------------------------------------------------------------------
  // buildIsCollection

  lemma ShapeMark(seeded: set<string>, marked: set<string>, k: string)
    ensures Shape(seeded, marked)[k := COLLECTION] == Shape(seeded, marked + {k})
  {
  }

  /** One turn of the exploration loop for a popped, non-empty path state:
      dispatch on its first production, update `result` for a key consumed a
      second time, and push the successor states. */
  method ExpandPath(possiblePaths: seq<WorkItem>, result: map<string, Subtype>,
                    currDef: seq<Production>, currInIteration: seq<bool>, currResult: map<string, nat>,
                    inIteration: seq<bool>, ghost seeded: set<string>, ghost marked: set<string>)
    returns (nextPaths: seq<WorkItem>, nextShape: map<string, Subtype>, ghost nextMarked: set<string>)
    requires currDef != []
    requires result == Shape(seeded, marked)
    ensures nextShape == Shape(seeded, nextMarked)
    ensures marked <= nextMarked
    ensures forall k :: k in result && result[k] == COLLECTION ==> k in nextShape && nextShape[k] == COLLECTION
    ensures nextMarked + StackMarks(nextPaths, Base.Last(inIteration))
            == marked + StackMarks(possiblePaths, Base.Last(inIteration)) + Explore(currDef, currResult, Base.Last(inIteration))
    ensures StackCost(nextPaths) < StackCost(possiblePaths) + Cost(currDef)
  {
    ghost var iter := Base.Last(inIteration);
    nextShape, nextMarked := result, marked;
    match currDef[0]
    case Terminal(_) =>
      nextPaths, nextShape, nextMarked :=
        ConsumeKey(possiblePaths, result, currDef, currInIteration, currResult, inIteration, seeded, marked);
    case NonTerminal(_) =>
      nextPaths, nextShape, nextMarked :=
        ConsumeKey(possiblePaths, result, currDef, currInIteration, currResult, inIteration, seeded, marked);
    case Option(_) => nextPaths := ExpandBody(possiblePaths, currDef, currInIteration, currResult, iter);
    case Repetition(_) => nextPaths := ExpandRepetition(possiblePaths, currDef, inIteration, currResult);
    case RepetitionMandatory(_) => nextPaths := ExpandRepetition(possiblePaths, currDef, inIteration, currResult);
    case RepetitionWithSeparator(_, _) => nextPaths := ExpandRepetition(possiblePaths, currDef, inIteration, currResult);
    case RepetitionMandatoryWithSeparator(_, _) =>
      nextPaths := ExpandRepetition(possiblePaths, currDef, inIteration, currResult);
    case Alternation(_) => nextPaths := ExpandAlternation(possiblePaths, currDef, currInIteration, currResult, iter);
    case Flat(_) => nextPaths := ExpandBody(possiblePaths, currDef, currInIteration, currResult, iter);
  }

  /** The Option and Flat branches: continue with the body followed by the
      rest of the path (the path that skips an Option is never pushed). */
  method ExpandBody(possiblePaths: seq<WorkItem>, currDef: seq<Production>, currInIteration: seq<bool>,
                    currResult: map<string, nat>, ghost iter: bool)
    returns (nextPaths: seq<WorkItem>)
    requires currDef != [] && (currDef[0].Option? || currDef[0].Flat?)
    ensures StackMarks(nextPaths, iter) == StackMarks(possiblePaths, iter) + Explore(currDef, currResult, iter)
    ensures StackCost(nextPaths) < StackCost(possiblePaths) + Cost(currDef)
  {
    DefSizeCons(currDef);
    var nextPath := Path(currDef[0].definition + currDef[1..], currInIteration, currResult);
    nextPaths := possiblePaths + [nextPath];
    Pushed(possiblePaths, nextPath, iter);
  }

  /** The Alternation branch: push one path per alternative, the last
      alternative first. */
  method ExpandAlternation(possiblePaths: seq<WorkItem>, currDef: seq<Production>, currInIteration: seq<bool>,
                           currResult: map<string, nat>, ghost iter: bool)
    returns (nextPaths: seq<WorkItem>)
    requires currDef != [] && currDef[0].Alternation?
    ensures StackMarks(nextPaths, iter) == StackMarks(possiblePaths, iter) + Explore(currDef, currResult, iter)
    ensures StackCost(nextPaths) < StackCost(possiblePaths) + Cost(currDef)
  {
    DefSizeCons(currDef);
    var alts, rest := currDef[0].alternatives, currDef[1..];
    nextPaths := PushAlternatives(possiblePaths, alts, rest, currInIteration, currResult);
    AltItemsPushed(possiblePaths, alts, rest, currInIteration, currResult, iter);
  }

  /** The Terminal and NonTerminal branches: count the key on this path, put
      COLLECTION for it when the count exceeds 1 or the argument's last
      iteration flag is set, and continue with the rest of the path. */
  method ConsumeKey(possiblePaths: seq<WorkItem>, result: map<string, Subtype>,
                    currDef: seq<Production>, currInIteration: seq<bool>, currResult: map<string, nat>,
                    inIteration: seq<bool>, ghost seeded: set<string>, ghost marked: set<string>)
    returns (nextPaths: seq<WorkItem>, nextShape: map<string, Subtype>, ghost nextMarked: set<string>)
    requires currDef != [] && IsKey(currDef[0])
    requires result == Shape(seeded, marked)
    ensures nextShape == Shape(seeded, nextMarked)
    ensures marked <= nextMarked
    ensures nextMarked + StackMarks(nextPaths, Base.Last(inIteration))
            == marked + StackMarks(possiblePaths, Base.Last(inIteration)) + Explore(currDef, currResult, Base.Last(inIteration))
    ensures StackCost(nextPaths) < StackCost(possiblePaths) + Cost(currDef)
  {
    KeyStep(currDef, currResult, Base.Last(inIteration));
    var key := Key(currDef[0]);
    var rest := currDef[1..];
    nextShape, nextMarked := result, marked;
    var occurrencesFound := Count(currResult, key) + 1;
    var nextResult := currResult[key := occurrencesFound];
    if occurrencesFound > 1 || Base.Last(inIteration) {
      ShapeMark(seeded, marked, key);
      nextShape := nextShape[key := COLLECTION];
      nextMarked := nextMarked + {key};
    }
    nextPaths := possiblePaths + [Path(rest, currInIteration, nextResult)];
    Pushed(possiblePaths, Path(rest, currInIteration, nextResult), Base.Last(inIteration));
  }

  predicate IsRepetition(p: Production) {
    p.Repetition? || p.RepetitionMandatory? || p.RepetitionWithSeparator? || p.RepetitionMandatoryWithSeparator?
  }

  /** The four repetition branches. A separator repetition `X (SEP X)*` is
      explored as the plain repetition `(SEP X)`. */
  method ExpandRepetition(possiblePaths: seq<WorkItem>, currDef: seq<Production>,
                          inIteration: seq<bool>, currResult: map<string, nat>)
    returns (nextPaths: seq<WorkItem>)
    requires currDef != [] && IsRepetition(currDef[0])
    ensures StackMarks(nextPaths, Base.Last(inIteration))
            == StackMarks(possiblePaths, Base.Last(inIteration)) + Explore(currDef, currResult, Base.Last(inIteration))
    ensures StackCost(nextPaths) < StackCost(possiblePaths) + Cost(currDef)
  {
    var rest := currDef[1..];
    DefSizeCons(currDef);
    match currDef[0]
    case Repetition(d) =>
      nextPaths := PushIteration(possiblePaths, d + rest, inIteration, currResult);
    case RepetitionMandatory(d) =>
      nextPaths := PushIteration(possiblePaths, d + rest, inIteration, currResult);
    case RepetitionWithSeparator(d, separator) =>
      var secondIteration := Repetition([Terminal(separator)] + d);
      nextPaths := PushIteration(possiblePaths, [secondIteration] + rest, inIteration, currResult);
    case RepetitionMandatoryWithSeparator(d, separator) =>
      var secondIteration := Repetition([Terminal(separator)] + d);
      nextPaths := PushIteration(possiblePaths, [secondIteration] + rest, inIteration, currResult);
  }

  /** The repetition branches: the path through the body, with the argument's
      iteration flags extended by `true`, then the bare EXIT_ITERATION marker. */
  method PushIteration(possiblePaths: seq<WorkItem>, nextDef: seq<Production>,
                       inIteration: seq<bool>, currResult: map<string, nat>)
    returns (nextPaths: seq<WorkItem>)
    ensures nextPaths == possiblePaths + [Path(nextDef, inIteration + [true], currResult), ExitIteration]
    ensures StackCost(nextPaths) == StackCost(possiblePaths) + Cost(nextDef) + 1
    ensures forall iter: bool :: StackMarks(nextPaths, iter) == StackMarks(possiblePaths, iter) + Explore(nextDef, currResult, iter)
  {
    var newInIteration := inIteration + [true];
    var nextPath := Path(nextDef, newInIteration, currResult);
    nextPaths := possiblePaths + [nextPath] + [ExitIteration];
    forall iter: bool
      ensures StackMarks(nextPaths, iter) == StackMarks(possiblePaths, iter) + Explore(nextDef, currResult, iter)
    {
      Pushed(possiblePaths, nextPath, iter);
      Pushed(possiblePaths + [nextPath], ExitIteration, iter);
    }
    Pushed(possiblePaths, nextPath, false);
    Pushed(possiblePaths + [nextPath], ExitIteration, false);
  }

  /** Seeds every key of `initialDef` with NONE, then explores the derivation
      paths with an explicit work stack, marking a key COLLECTION when a path
      consumes it a second time (or when the argument's last iteration flag is
      set). Popping EXIT_ITERATION is taken to skip it, as for an empty path. */
  method BuildIsCollection(initialDef: seq<Production>, inIteration: seq<bool>)
    returns (result: map<string, Subtype>)
    ensures result == IsCollectionSpec(initialDef, inIteration)
  {
    var initVisitor := new IsCollectionInitVisitor();
    initVisitor.VisitDefinition(initialDef);
    result := initVisitor.result;
    assert result == Shape(Keys(initialDef, false), {});

    ghost var iter := Base.Last(inIteration);
    ghost var marked: set<string> := {};
    var possiblePaths := [Path(initialDef, inIteration, map[])];
    assert StackMarks(possiblePaths, iter) == Explore(initialDef, map[], iter) by {
      assert possiblePaths == [] + [possiblePaths[0]];
      Pushed([], possiblePaths[0], iter);
    }

    while possiblePaths != []
      invariant result == Shape(Keys(initialDef, false), marked)
      invariant marked + StackMarks(possiblePaths, iter) == Explore(initialDef, map[], iter)
      decreases StackCost(possiblePaths)
    {
      var currPath := possiblePaths[|possiblePaths| - 1];
      possiblePaths := possiblePaths[..|possiblePaths| - 1];
      assert currPath.Path? ==> ItemMarks(currPath, iter) == Explore(currPath.def, currPath.currResult, iter);
      if currPath.ExitIteration? {
        // EXIT_ITERATION has no definition: it is dropped like an empty path.
      } else if currPath.def == [] {
        // an empty path, e.g. after an empty alternative
      } else {
        possiblePaths, result, marked := ExpandPath(possiblePaths, result, currPath.def, currPath.inIteration,
                                                    currPath.currResult, inIteration, Keys(initialDef, false), marked);
      }
    }
  }

  // ---------------------------------------------------------------------------
  // buildisCollectionForTopRules

  /** The table the batch analysis builds: one entry per rule name, holding
      the shape of the LAST top rule with that name (a later `put` replaces
      an earlier one). */
  function TopRulesSpec(topRules: seq<Rule>): map<string, map<string, Subtype>>
  {
    if topRules == [] then map[]
    else
      var r := topRules[|topRules| - 1];
      TopRulesSpec(topRules[..|topRules| - 1])[r.name := IsCollectionSpec(r.definition, [])]
  }

  /** Rule names whose entry no later rule overwrites. */
  predicate LastWithName(topRules: seq<Rule>, i: int)
  {
    0 <= i < |topRules| && forall j :: i < j < |topRules| ==> topRules[j].name != topRules[i].name
  }

  /** The table has exactly the top rules' names as keys, and each rule that
      is the last one of its name is mapped to the shape of its own
      definition under an empty iteration stack. */
  lemma {:induction false} TopRulesEntries(topRules: seq<Rule>)
    ensures TopRulesSpec(topRules).Keys == set r | r in topRules :: r.name
    ensures forall i :: LastWithName(topRules, i) ==>
              TopRulesSpec(topRules)[topRules[i].name] == IsCollectionSpec(topRules[i].definition, [])
  {
    if topRules != [] {
      var init := topRules[..|topRules| - 1];
      var r := topRules[|topRules| - 1];
      TopRulesEntries(init);
      assert topRules == init + [r];
      forall i | LastWithName(topRules, i)
        ensures TopRulesSpec(topRules)[topRules[i].name] == IsCollectionSpec(topRules[i].definition, [])
      {
        if i < |init| {
          assert topRules[i] == init[i];
          assert LastWithName(init, i);
        }
      }
    }
  }

  /** With pairwise distinct rule names, every top rule has its own entry. */
  lemma DistinctTopRules(topRules: seq<Rule>)
    requires forall i, j :: 0 <= i < j < |topRules| ==> topRules[i].name != topRules[j].name
    ensures forall r :: r in topRules ==> r.name in TopRulesSpec(topRules)
                                          && TopRulesSpec(topRules)[r.name] == IsCollectionSpec(r.definition, [])
  {
    TopRulesEntries(topRules);
    forall r | r in topRules
      ensures TopRulesSpec(topRules)[r.name] == IsCollectionSpec(r.definition, [])
    {
      var i :| 0 <= i < |topRules| && topRules[i] == r;
      assert LastWithName(topRules, i);
    }
  }

  method BuildIsCollectionForTopRules(topRules: seq<Rule>) returns (result: map<string, map<string, Subtype>>)
    ensures result == TopRulesSpec(topRules)
  {
    result := map[];
    var i := 0;
    while i < |topRules|
      invariant 0 <= i <= |topRules|
      invariant result == TopRulesSpec(topRules[..i])
    {
      var currTopRule := topRules[i];
      var currRuleIsCollection := BuildIsCollection(currTopRule.definition, []);
      assert topRules[..i + 1][..i] == topRules[..i];
      result := result[currTopRule.name := currRuleIsCollection];
      i := i + 1;
    }
    assert topRules[..|topRules|] == topRules;
  }

  // ---------------------------------------------------------------------------
  // CST nodes and their children dictionaries

  /** A child of a CST node: a consumed token or a nested node. */
  datatype CstElement = TokenElement(token: Base.Token) | NodeElement(node: CstNode)

  /** The value stored under one key: a single child, or the ordered list of
      children of a COLLECTION key. */
  datatype CstChild = Single(element: CstElement) | Many(elements: seq<CstElement>)

  class CstNode {
    const name: string
    var childrenDictionary: map<string, CstChild>

    constructor (name: string, childrenDictionary: map<string, CstChild>)
      ensures this.name == name && this.childrenDictionary == childrenDictionary
    {
      this.name := name;
      this.childrenDictionary := childrenDictionary;
    }
  }

  /** The key a child is filed under: the token's class name, or the nested
      node's rule name. */
  function ElementKey(e: CstElement): string {
    match e
    case TokenElement(token) => token.tokenType
    case NodeElement(node) => node.name
  }

  /** The children dictionary of a fresh node. */
  function InitialChildren(isCollection: map<string, Subtype>): (children: map<string, CstChild>)
    ensures forall k :: k in children <==> k in isCollection && isCollection[k] == COLLECTION
    ensures forall k :: k in children ==> children[k] == Many([])
  {
    map k | k in isCollection && isCollection[k] == COLLECTION :: Many([])
  }

  method InitChildrenDictionary(isCollection: map<string, Subtype>) returns (childrenDictionary: map<string, CstChild>)
    ensures forall k :: k in childrenDictionary <==> k in isCollection && isCollection[k] == COLLECTION
    ensures forall k :: k in childrenDictionary ==> childrenDictionary[k] == Many([])
  {
    childrenDictionary := map[];
    var keys := isCollection.Keys;
    while keys != {}
      invariant keys <= isCollection.Keys
      invariant forall k :: k in childrenDictionary <==>
                  k in isCollection && k !in keys && isCollection[k] == COLLECTION
      invariant forall k :: k in childrenDictionary ==> childrenDictionary[k] == Many([])
      decreases keys
    {
      var key :| key in keys;
      var value := isCollection[key];
      if value == COLLECTION {
        childrenDictionary := childrenDictionary[key := Many([])];
      }
      keys := keys - {key};
    }
  }

  /** The dictionary after one child is recorded under `key`: appended to
      the key's list when `isCollection`, otherwise stored as the key's
      single value; every other key keeps its value. */
  function Recorded(children: map<string, CstChild>, key: string, e: CstElement, isCollection: bool)
    : (r: map<string, CstChild>)
    requires isCollection ==> key in children && children[key].Many?
    ensures r.Keys == children.Keys + {key}
    ensures forall k :: k in children && k != key ==> r[k] == children[k]
    ensures isCollection ==> r[key].Many? && |r[key].elements| == |children[key].elements| + 1
                             && r[key].elements[..|children[key].elements|] == children[key].elements
                             && r[key].elements[|children[key].elements|] == e
    ensures !isCollection ==> r[key] == Single(e)
  {
    if isCollection then children[key := Many(children[key].elements + [e])]
    else children[key := Single(e)]
  }

  /** The list under a COLLECTION key must already exist: the source pushes
      onto it without a check. */
  method AddTerminalToCst(node: CstNode, token: Base.Token, isCollection: bool)
    requires isCollection ==> token.tokenType in node.childrenDictionary
                              && node.childrenDictionary[token.tokenType].Many?
    modifies node
    ensures node.childrenDictionary
            == Recorded(old(node.childrenDictionary), token.tokenType, TokenElement(token), isCollection)
  {
    var tokenClassName := token.tokenType;
    if isCollection {
      var slot := node.childrenDictionary[tokenClassName];
      node.childrenDictionary := node.childrenDictionary[tokenClassName := Many(slot.elements + [TokenElement(token)])];
    } else {
      node.childrenDictionary := node.childrenDictionary[tokenClassName := Single(TokenElement(token))];
    }
  }

  method AddNoneTerminalToCst(node: CstNode, noneTerminal: CstNode, isCollection: bool)
    requires isCollection ==> noneTerminal.name in node.childrenDictionary
                              && node.childrenDictionary[noneTerminal.name].Many?
    modifies node
    ensures node.childrenDictionary
            == Recorded(old(node.childrenDictionary), noneTerminal.name, NodeElement(noneTerminal), isCollection)
  {
    var tokenClassName := noneTerminal.name;
    if isCollection {
      var slot := node.childrenDictionary[tokenClassName];
      node.childrenDictionary := node.childrenDictionary[tokenClassName := Many(slot.elements + [NodeElement(noneTerminal)])];
    } else {
      node.childrenDictionary := node.childrenDictionary[tokenClassName := Single(NodeElement(noneTerminal))];
    }
  }

  // ---------------------------------------------------------------------------
  // A whole derivation: the node built from the shape by `initChildrenDictionary`
  // followed by one `add...ToCst` call per child, with the flag the parser
  // looks up in the shape

  predicate IsCollectionKey(isCollection: map<string, Subtype>, k: string) {
    k in isCollection && isCollection[k] == COLLECTION
  }

  /** The children recorded in order under key `k`. */
  function KeyedElements(events: seq<CstElement>, k: string): seq<CstElement> {
    if events == [] then []
    else
      var e := events[|events| - 1];
      KeyedElements(events[..|events| - 1], k) + (if ElementKey(e) == k then [e] else [])
  }

  function Derive(isCollection: map<string, Subtype>, events: seq<CstElement>): (children: map<string, CstChild>)
    ensures forall k :: IsCollectionKey(isCollection, k) ==> k in children && children[k].Many?
  {
    if events == [] then InitialChildren(isCollection)
    else
      var e := events[|events| - 1];
      Recorded(Derive(isCollection, events[..|events| - 1]), ElementKey(e), e, IsCollectionKey(isCollection, ElementKey(e)))
  }

  /** A derivation leaves every COLLECTION key with all its children in
      consumption order, every other key with its last child when it has one,
      and no entry for a non-COLLECTION key that received no child. */
  lemma {:induction false} DeriveSlots(isCollection: map<string, Subtype>, events: seq<CstElement>, k: string)
    ensures IsCollectionKey(isCollection, k) ==> Derive(isCollection, events)[k] == Many(KeyedElements(events, k))
    ensures !IsCollectionKey(isCollection, k) ==> (k in Derive(isCollection, events) <==> KeyedElements(events, k) != [])
    ensures !IsCollectionKey(isCollection, k) && KeyedElements(events, k) != [] ==>
              Derive(isCollection, events)[k] == Single(KeyedElements(events, k)[|KeyedElements(events, k)| - 1])
  {
    if events != [] {
      DeriveSlots(isCollection, events[..|events| - 1], k);
    }
  }

  /** When the shape is right and a non-COLLECTION key receives exactly one
      child, that child is what the node holds: no child is lost. */
  lemma SingleChildKept(isCollection: map<string, Subtype>, events: seq<CstElement>, k: string)
    requires !IsCollectionKey(isCollection, k) && |KeyedElements(events, k)| == 1
    ensures k in Derive(isCollection, events) && Derive(isCollection, events)[k] == Single(KeyedElements(events, k)[0])
  {
    DeriveSlots(isCollection, events, k);
  }

  /** The rule A, B, A of the parser tests: A is a COLLECTION holding both A
      tokens in order, B holds its single token. */
  lemma ExampleRepeatedTerminalNode(a1: Base.Token, b: Base.Token, a2: Base.Token)
    requires a1.tokenType == "A" && a2.tokenType == "A" && b.tokenType == "B"
    ensures var shape := IsCollectionSpec([Terminal("A"), Terminal("B"), Terminal("A")], []);
            Derive(shape, [TokenElement(a1), TokenElement(b), TokenElement(a2)])
            == map["A" := Many([TokenElement(a1), TokenElement(a2)]), "B" := Single(TokenElement(b))]
  {
    ExampleRepeatedTerminal();
    var shape := map["A" := COLLECTION, "B" := NONE];
    var events := [TokenElement(a1), TokenElement(b), TokenElement(a2)];
    assert events[..2][..1][..0] == [];
    assert Derive(shape, []) == map["A" := Many([])];
    assert events[..2][..1] == [TokenElement(a1)];
    assert Derive(shape, events[..2][..1]) == map["A" := Many([TokenElement(a1)])];
    assert events[..2] == [TokenElement(a1), TokenElement(b)];
    assert Derive(shape, events[..2]) == map["A" := Many([TokenElement(a1)]), "B" := Single(TokenElement(b))];
    assert [TokenElement(a1)] + [TokenElement(a2)] == [TokenElement(a1), TokenElement(a2)];
  }

  /** The rule A, B of the parser tests: both keys hold their single token. */
  lemma ExampleDistinctTerminalsNode(a: Base.Token, b: Base.Token)
    requires a.tokenType == "A" && b.tokenType == "B"
    ensures var shape := IsCollectionSpec([Terminal("A"), Terminal("B")], []);
            Derive(shape, [TokenElement(a), TokenElement(b)])
            == map["A" := Single(TokenElement(a)), "B" := Single(TokenElement(b))]
  {
    ExampleDistinctTerminals();
    var shape := map["A" := NONE, "B" := NONE];
    var events := [TokenElement(a), TokenElement(b)];
    assert events[..1][..0] == [];
    assert Derive(shape, []) == map[];
    assert events[..1] == [TokenElement(a)];
    assert Derive(shape, events[..1]) == map["A" := Single(TokenElement(a))];
  }
}
