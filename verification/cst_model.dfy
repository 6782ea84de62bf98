/** The grammar productions a rule is made of, and the specification of the
    CST shape analysis of src/parse/cst/cst.ts: which keys the analysis seeds,
    which keys its path exploration marks as collections, and the derivation
    paths it explores. */
module CstModel {

  import Base

  /** CST_SUBTYPE. OPTIONAL is declared by the source but never produced. */
  datatype Subtype = NONE | COLLECTION | OPTIONAL

  /** The production kinds the analysis dispatches on. A closed type: the
      source's "non exhaustive match" error cannot arise. An alternation holds
      the bodies of its alternatives. */
  datatype Production =
    | Terminal(terminalName: string)
    | NonTerminal(nonTerminalName: string)
    | Option(definition: seq<Production>)
    | Repetition(definition: seq<Production>)
    | RepetitionMandatory(definition: seq<Production>)
    | RepetitionWithSeparator(definition: seq<Production>, separator: string)
    | RepetitionMandatoryWithSeparator(definition: seq<Production>, separator: string)
    | Alternation(alternatives: seq<Alternative>)
    | Flat(definition: seq<Production>)

  /** One alternative of an alternation (a Flat node in the source). */
  datatype Alternative = Alternative(definition: seq<Production>)

  /** A top rule: its name and its definition. */
  datatype Rule = Rule(name: string, definition: seq<Production>)

  predicate IsKey(p: Production) {
    p.Terminal? || p.NonTerminal?
  }

  /** The key a Terminal or NonTerminal is recorded under. */
  function Key(p: Production): string
    requires IsKey(p)
  {
    if p.Terminal? then p.terminalName else p.nonTerminalName
  }

  /** The separator variants rewrite `X (SEP X)*` into the repetition `(SEP X)`. */
  function SeparatorRewrite(body: seq<Production>, sep: string): Production {
    Repetition([Terminal(sep)] + body)
  }

  // ---------------------------------------------------------------------------
  // Size: a termination measure that weighs a separator repetition above its
  // rewritten form.

  function Size(p: Production): nat
    decreases p
  {
    match p
    case Terminal(_) => 1
    case NonTerminal(_) => 1
    case Option(d) => 1 + DefSize(d)
    case Repetition(d) => 1 + DefSize(d)
    case RepetitionMandatory(d) => 1 + DefSize(d)
    case RepetitionWithSeparator(d, _) => 3 + DefSize(d)
    case RepetitionMandatoryWithSeparator(d, _) => 3 + DefSize(d)
    case Alternation(alts) => 1 + AltsSize(alts)
    case Flat(d) => 1 + DefSize(d)
  }

  function DefSize(def: seq<Production>): nat
    decreases def
  {
    if def == [] then 0 else assert def[0] in def; Size(def[0]) + DefSize(def[1..])
  }

  function AltsSize(alts: seq<Alternative>): nat
    decreases alts
  {
    if alts == [] then 0 else assert alts[0] in alts; DefSize(alts[0].definition) + AltsSize(alts[1..])
  }

  lemma DefSizeCons(def: seq<Production>)
    requires def != []
    ensures DefSize(def) == Size(def[0]) + DefSize(def[1..])
    ensures Size(def[0]) >= 1
  {
  }

  lemma {:induction false} DefSizeAppend(a: seq<Production>, b: seq<Production>)
    ensures DefSize(a + b) == DefSize(a) + DefSize(b)
  {
    if a == [] {
      assert a + b == b;
    } else {
      assert (a + b)[0] == a[0];
      assert (a + b)[1..] == a[1..] + b;
      DefSizeAppend(a[1..], b);
    }
  }

  lemma RewriteSize(body: seq<Production>, sep: string, rest: seq<Production>)
    ensures DefSize([SeparatorRewrite(body, sep)] + rest) == 2 + DefSize(body) + DefSize(rest)
  {
    DefSizeAppend([SeparatorRewrite(body, sep)], rest);
    DefSizeAppend([Terminal(sep)], body);
  }

  // ---------------------------------------------------------------------------
  // Keys: what IsCollectionInitVisitor records. With `withSeparators` the
  // separators of the separator repetitions are included too (the visitor does
  // not see them: they are token classes, not child productions).

  function PKeys(p: Production, withSeparators: bool): set<string>
    decreases p
  {
    match p
    case Terminal(n) => {n}
    case NonTerminal(n) => {n}
    case Option(d) => Keys(d, withSeparators)
    case Repetition(d) => Keys(d, withSeparators)
    case RepetitionMandatory(d) => Keys(d, withSeparators)
    case RepetitionWithSeparator(d, s) =>
      Keys(d, withSeparators) + (if withSeparators then {s} else {})
    case RepetitionMandatoryWithSeparator(d, s) =>
      Keys(d, withSeparators) + (if withSeparators then {s} else {})
    case Alternation(alts) => AltsKeys(alts, withSeparators)
    case Flat(d) => Keys(d, withSeparators)
  }

  function Keys(def: seq<Production>, withSeparators: bool): set<string>
    decreases def
  {
    if def == [] then {} else assert def[0] in def; PKeys(def[0], withSeparators) + Keys(def[1..], withSeparators)
  }

  function AltsKeys(alts: seq<Alternative>, withSeparators: bool): set<string>
    decreases alts
  {
    if alts == [] then {} else assert alts[0] in alts; Keys(alts[0].definition, withSeparators) + AltsKeys(alts[1..], withSeparators)
  }

  lemma {:induction false} KeysAppend(a: seq<Production>, b: seq<Production>, w: bool)
    ensures Keys(a + b, w) == Keys(a, w) + Keys(b, w)
  {
    if a == [] {
      assert a + b == b;
    } else {
      assert (a + b)[0] == a[0];
      assert (a + b)[1..] == a[1..] + b;
      KeysAppend(a[1..], b, w);
    }
  }

  // ---------------------------------------------------------------------------
  // Explore: the keys that the path exploration of buildIsCollection marks
  // COLLECTION, starting from one path with definition `def`, occurrence
  // counter `counts`, where `iter` is `last(inIteration)` of the function
  // argument (the only iteration flag the source ever reads).

  /** The path-local counter of `k` (absent keys count 0). */
  function Count(counts: map<string, nat>, k: string): nat {
    if k in counts then counts[k] else 0
  }

  function Explore(def: seq<Production>, counts: map<string, nat>, iter: bool): set<string>
    decreases DefSize(def), 1, 0
  {
    if def == [] then {}
    else
      DefSizeCons(def);
      var rest := def[1..];
      if IsKey(def[0]) then
        var k := Key(def[0]);
        var found := Count(counts, k) + 1;
        (if found > 1 || iter then {k} else {}) + Explore(rest, counts[k := found], iter)
      else
        match def[0]
        case Option(d) => DefSizeAppend(d, rest); Explore(d + rest, counts, iter)
        case Repetition(d) => DefSizeAppend(d, rest); Explore(d + rest, counts, iter)
        case RepetitionMandatory(d) => DefSizeAppend(d, rest); Explore(d + rest, counts, iter)
        case RepetitionWithSeparator(d, s) =>
          RewriteSize(d, s, rest); Explore([SeparatorRewrite(d, s)] + rest, counts, iter)
        case RepetitionMandatoryWithSeparator(d, s) =>
          RewriteSize(d, s, rest); Explore([SeparatorRewrite(d, s)] + rest, counts, iter)
        case Alternation(alts) => ExploreAlts(alts, rest, counts, iter)
        case Flat(d) => DefSizeAppend(d, rest); Explore(d + rest, counts, iter)
  }

  function ExploreAlts(alts: seq<Alternative>, rest: seq<Production>,
                       counts: map<string, nat>, iter: bool): set<string>
    decreases AltsSize(alts) + DefSize(rest), 2, |alts|
  {
    if alts == [] then {}
    else
      DefSizeAppend(alts[0].definition, rest);
      Explore(alts[0].definition + rest, counts, iter) + ExploreAlts(alts[1..], rest, counts, iter)
  }

  // ---------------------------------------------------------------------------
  // Paths: the sequences of keys consumed along each path the exploration
  // follows. An option is always entered, a repetition body is walked once
  // (the exit marker carries no remainder), each alternative is one path, and
  // an alternation without alternatives ends the path.

  function Paths(def: seq<Production>): set<seq<string>>
    decreases DefSize(def), 1, 0
  {
    if def == [] then {[]}
    else
      DefSizeCons(def);
      var rest := def[1..];
      if IsKey(def[0]) then
        var k := Key(def[0]);
        set p | p in Paths(rest) :: [k] + p
      else
        match def[0]
        case Option(d) => DefSizeAppend(d, rest); Paths(d + rest)
        case Repetition(d) => DefSizeAppend(d, rest); Paths(d + rest)
        case RepetitionMandatory(d) => DefSizeAppend(d, rest); Paths(d + rest)
        case RepetitionWithSeparator(d, s) =>
          RewriteSize(d, s, rest); Paths([SeparatorRewrite(d, s)] + rest)
        case RepetitionMandatoryWithSeparator(d, s) =>
          RewriteSize(d, s, rest); Paths([SeparatorRewrite(d, s)] + rest)
        case Alternation(alts) => if alts == [] then {[]} else PathsAlts(alts, rest)
        case Flat(d) => DefSizeAppend(d, rest); Paths(d + rest)
  }

  function PathsAlts(alts: seq<Alternative>, rest: seq<Production>): set<seq<string>>
    decreases AltsSize(alts) + DefSize(rest), 2, |alts|
  {
    if alts == [] then {}
    else
      DefSizeAppend(alts[0].definition, rest);
      Paths(alts[0].definition + rest) + PathsAlts(alts[1..], rest)
  }

  // ---------------------------------------------------------------------------
  // The exploration marks exactly the keys that some explored path consumes
  // twice (or, when the argument's last iteration flag is set, at all).

  /** Path `p` makes `k` a collection when it consumes `k`, and either the
      iteration flag is set or `k`'s count (starting from `counts`) exceeds 1. */
  ghost predicate Witness(p: seq<string>, k: string, counts: map<string, nat>, iter: bool) {
    multiset(p)[k] >= 1 && (iter || Count(counts, k) + multiset(p)[k] >= 2)
  }

  ghost predicate OnSomePath(paths: set<seq<string>>, k: string, counts: map<string, nat>, iter: bool) {
    exists p :: p in paths && Witness(p, k, counts, iter)
  }

  /** Every definition has at least one explored path. */
  lemma {:induction false} PathsNonEmpty(def: seq<Production>)
    ensures Paths(def) != {}
    decreases DefSize(def), 1, 0
  {
    if def != [] {
      DefSizeCons(def);
      var rest := def[1..];
      if IsKey(def[0]) {
        PathsNonEmpty(rest);
        var q :| q in Paths(rest);
        assert [Key(def[0])] + q in Paths(def);
      } else {
        match def[0]
        case Option(d) => DefSizeAppend(d, rest); PathsNonEmpty(d + rest);
        case Repetition(d) => DefSizeAppend(d, rest); PathsNonEmpty(d + rest);
        case RepetitionMandatory(d) => DefSizeAppend(d, rest); PathsNonEmpty(d + rest);
        case RepetitionWithSeparator(d, s) =>
          RewriteSize(d, s, rest); PathsNonEmpty([SeparatorRewrite(d, s)] + rest);
        case RepetitionMandatoryWithSeparator(d, s) =>
          RewriteSize(d, s, rest); PathsNonEmpty([SeparatorRewrite(d, s)] + rest);
        case Alternation(alts) =>
          if alts != [] {
            DefSizeAppend(alts[0].definition, rest);
            PathsNonEmpty(alts[0].definition + rest);
          }
        case Flat(d) => DefSizeAppend(d, rest); PathsNonEmpty(d + rest);
      }
    }
  }

  /** A key is marked by the exploration exactly when some explored path
      witnesses it. */
  lemma {:induction false} ExploreIsPathWitness(def: seq<Production>, counts: map<string, nat>, iter: bool, k: string)
    ensures k in Explore(def, counts, iter) <==> OnSomePath(Paths(def), k, counts, iter)
    decreases DefSize(def), 1, 0
  {
    if def == [] {
      assert !Witness([], k, counts, iter);
    } else {
      DefSizeCons(def);
      var rest := def[1..];
      if IsKey(def[0]) {
        ExploreKeyIsPathWitness(def, counts, iter, k);
      } else {
        match def[0]
        case Option(d) => DefSizeAppend(d, rest); ExploreIsPathWitness(d + rest, counts, iter, k);
        case Repetition(d) => DefSizeAppend(d, rest); ExploreIsPathWitness(d + rest, counts, iter, k);
        case RepetitionMandatory(d) => DefSizeAppend(d, rest); ExploreIsPathWitness(d + rest, counts, iter, k);
        case RepetitionWithSeparator(d, s) =>
          RewriteSize(d, s, rest); ExploreIsPathWitness([SeparatorRewrite(d, s)] + rest, counts, iter, k);
        case RepetitionMandatoryWithSeparator(d, s) =>
          RewriteSize(d, s, rest); ExploreIsPathWitness([SeparatorRewrite(d, s)] + rest, counts, iter, k);
        case Alternation(alts) =>
          if alts == [] {
            assert !Witness([], k, counts, iter);
          } else {
            ExploreAltsIsPathWitness(alts, rest, counts, iter, k);
          }
        case Flat(d) => DefSizeAppend(d, rest); ExploreIsPathWitness(d + rest, counts, iter, k);
      }
    }
  }

  /** The Terminal/NonTerminal case of ExploreIsPathWitness. */
  lemma {:induction false} ExploreKeyIsPathWitness(def: seq<Production>, counts: map<string, nat>, iter: bool, k: string)
    requires def != [] && IsKey(def[0])
    ensures k in Explore(def, counts, iter) <==> OnSomePath(Paths(def), k, counts, iter)
    decreases DefSize(def), 0, 0
  {
    DefSizeCons(def);
    var rest := def[1..];
    var k0 := Key(def[0]);
    var found := Count(counts, k0) + 1;
    var next := counts[k0 := found];
    var marks := if found > 1 || iter then {k0} else {};
    assert Explore(def, counts, iter) == marks + Explore(rest, next, iter);
    assert Paths(def) == set q | q in Paths(rest) :: [k0] + q;
    ExploreIsPathWitness(rest, next, iter, k);
    PathsNonEmpty(rest);
    forall q | q in Paths(rest)
      ensures Witness([k0] + q, k, counts, iter) <==> k in marks || Witness(q, k, next, iter)
    {
      PrefixWitness(k0, q, k, counts, iter);
    }
    if k in Explore(def, counts, iter) {
      var q :| q in Paths(rest) && (k in marks || Witness(q, k, next, iter));
      assert [k0] + q in Paths(def);
    }
    if OnSomePath(Paths(def), k, counts, iter) {
      var p :| p in Paths(def) && Witness(p, k, counts, iter);
      var q :| q in Paths(rest) && p == [k0] + q;
    }
  }

  /** A path that starts with key `k0` is a witness for `k` exactly when `k0`
      itself is marked there or the rest of the path is a witness once `k0`
      is counted. */
  lemma PrefixWitness(k0: string, q: seq<string>, k: string, counts: map<string, nat>, iter: bool)
    ensures var found := Count(counts, k0) + 1;
            Witness([k0] + q, k, counts, iter)
            <==> (k == k0 && (found > 1 || iter)) || Witness(q, k, counts[k0 := found], iter)
  {
    var found := Count(counts, k0) + 1;
    assert Count(counts[k0 := found], k) == if k == k0 then found else Count(counts, k);
    assert multiset([k0] + q)[k] == (if k == k0 then 1 else 0) + multiset(q)[k];
  }

  lemma {:induction false} ExploreAltsIsPathWitness(alts: seq<Alternative>, rest: seq<Production>,
                                                    counts: map<string, nat>, iter: bool, k: string)
    ensures k in ExploreAlts(alts, rest, counts, iter) <==> OnSomePath(PathsAlts(alts, rest), k, counts, iter)
    decreases AltsSize(alts) + DefSize(rest), 2, |alts|
  {
    if alts != [] {
      DefSizeAppend(alts[0].definition, rest);
      ExploreIsPathWitness(alts[0].definition + rest, counts, iter, k);
      ExploreAltsIsPathWitness(alts[1..], rest, counts, iter, k);
    }
  }

  // ---------------------------------------------------------------------------
  // The mapping buildIsCollection returns.

  /** Every seeded key and every marked key, COLLECTION exactly for the marked ones. */
  function Shape(seeded: set<string>, marked: set<string>): map<string, Subtype> {
    map k | k in seeded + marked :: if k in marked then COLLECTION else NONE
  }

  /** The result of `buildIsCollection(def, inIteration)`. */
  function IsCollectionSpec(def: seq<Production>, inIteration: seq<bool>): map<string, Subtype> {
    Shape(Keys(def, false), Explore(def, map[], Base.Last(inIteration)))
  }

  /** Only keys of the definition, separators included, can be marked. */
  lemma {:induction false} ExploreWithinKeys(def: seq<Production>, counts: map<string, nat>, iter: bool)
    ensures Explore(def, counts, iter) <= Keys(def, true)
    decreases DefSize(def), 1, 0
  {
    if def != [] {
      DefSizeCons(def);
      var rest := def[1..];
      if IsKey(def[0]) {
        var k0 := Key(def[0]);
        ExploreWithinKeys(rest, counts[k0 := Count(counts, k0) + 1], iter);
      } else {
        match def[0]
        case Option(d) => DefSizeAppend(d, rest); KeysAppend(d, rest, true); ExploreWithinKeys(d + rest, counts, iter);
        case Repetition(d) => DefSizeAppend(d, rest); KeysAppend(d, rest, true); ExploreWithinKeys(d + rest, counts, iter);
        case RepetitionMandatory(d) => DefSizeAppend(d, rest); KeysAppend(d, rest, true); ExploreWithinKeys(d + rest, counts, iter);
        case RepetitionWithSeparator(d, s) =>
          RewriteSize(d, s, rest); RewriteKeys(d, s, rest);
          ExploreWithinKeys([SeparatorRewrite(d, s)] + rest, counts, iter);
        case RepetitionMandatoryWithSeparator(d, s) =>
          RewriteSize(d, s, rest); RewriteKeys(d, s, rest);
          ExploreWithinKeys([SeparatorRewrite(d, s)] + rest, counts, iter);
        case Alternation(alts) => ExploreAltsWithinKeys(alts, rest, counts, iter);
        case Flat(d) => DefSizeAppend(d, rest); KeysAppend(d, rest, true); ExploreWithinKeys(d + rest, counts, iter);
      }
    }
  }

  lemma {:induction false} ExploreAltsWithinKeys(alts: seq<Alternative>, rest: seq<Production>,
                                                 counts: map<string, nat>, iter: bool)
    ensures ExploreAlts(alts, rest, counts, iter) <= AltsKeys(alts, true) + Keys(rest, true)
    decreases AltsSize(alts) + DefSize(rest), 2, |alts|
  {
    if alts != [] {
      DefSizeAppend(alts[0].definition, rest);
      KeysAppend(alts[0].definition, rest, true);
      ExploreWithinKeys(alts[0].definition + rest, counts, iter);
      ExploreAltsWithinKeys(alts[1..], rest, counts, iter);
    }
  }

  lemma RewriteKeys(body: seq<Production>, sep: string, rest: seq<Production>)
    ensures Keys([SeparatorRewrite(body, sep)] + rest, true) == {sep} + Keys(body, true) + Keys(rest, true)
  {
    KeysAppend([SeparatorRewrite(body, sep)], rest, true);
    KeysAppend([Terminal(sep)], body, true);
  }

  lemma {:induction false} KeysWithoutSeparators(def: seq<Production>)
    ensures Keys(def, false) <= Keys(def, true)
    decreases def
  {
    if def != [] {
      assert def[0] in def;
      PKeysWithoutSeparators(def[0]);
      KeysWithoutSeparators(def[1..]);
    }
  }

  lemma {:induction false} PKeysWithoutSeparators(p: Production)
    ensures PKeys(p, false) <= PKeys(p, true)
    decreases p
  {
    match p
    case Terminal(_) =>
    case NonTerminal(_) =>
    case Option(d) => KeysWithoutSeparators(d);
    case Repetition(d) => KeysWithoutSeparators(d);
    case RepetitionMandatory(d) => KeysWithoutSeparators(d);
    case RepetitionWithSeparator(d, _) => KeysWithoutSeparators(d);
    case RepetitionMandatoryWithSeparator(d, _) => KeysWithoutSeparators(d);
    case Alternation(alts) => AltsKeysWithoutSeparators(alts);
    case Flat(d) => KeysWithoutSeparators(d);
  }

  lemma {:induction false} AltsKeysWithoutSeparators(alts: seq<Alternative>)
    ensures AltsKeys(alts, false) <= AltsKeys(alts, true)
    decreases alts
  {
    if alts != [] {
      assert alts[0] in alts;
      KeysWithoutSeparators(alts[0].definition);
      AltsKeysWithoutSeparators(alts[1..]);
    }
  }

  /** Every key the visitor finds is in the result, NONE unless marked; the
      only other keys are separators that the exploration marked. */
  lemma ResultKeys(def: seq<Production>, inIteration: seq<bool>)
    ensures Keys(def, false) <= IsCollectionSpec(def, inIteration).Keys <= Keys(def, true)
    ensures forall k :: k in IsCollectionSpec(def, inIteration) && k !in Keys(def, false) ==>
              IsCollectionSpec(def, inIteration)[k] == COLLECTION
    ensures forall k :: k in IsCollectionSpec(def, inIteration) ==> IsCollectionSpec(def, inIteration)[k] != OPTIONAL
  {
    ExploreWithinKeys(def, map[], Base.Last(inIteration));
    KeysWithoutSeparators(def);
  }

  /** Under the default (empty) iteration flags, a key is COLLECTION exactly
      when some explored path consumes it at least twice. */
  lemma CollectionIffTwiceOnAPath(def: seq<Production>, inIteration: seq<bool>, k: string)
    requires !Base.Last(inIteration)
    requires k in IsCollectionSpec(def, inIteration)
    ensures IsCollectionSpec(def, inIteration)[k] == COLLECTION <==>
              exists p :: p in Paths(def) && multiset(p)[k] >= 2
  {
    ExploreIsPathWitness(def, map[], false, k);
    if exists p :: p in Paths(def) && multiset(p)[k] >= 2 {
      var p :| p in Paths(def) && multiset(p)[k] >= 2;
      assert Witness(p, k, map[], false);
    }
  }

  /** A key consumed at most once on every explored path stays NONE. */
  lemma AtMostOncePerPathIsNone(def: seq<Production>, k: string)
    requires k in Keys(def, false)
    requires forall p :: p in Paths(def) ==> multiset(p)[k] <= 1
    ensures IsCollectionSpec(def, []) == IsCollectionSpec(def, [])[k := NONE]
  {
    CollectionIffTwiceOnAPath(def, [], k);
  }

  /** When the argument's last iteration flag is set, every key that some
      path consumes is COLLECTION. */
  lemma InIterationMarksEveryConsumedKey(def: seq<Production>, inIteration: seq<bool>, p: seq<string>, k: string)
    requires Base.Last(inIteration)
    requires p in Paths(def) && k in p
    ensures k in IsCollectionSpec(def, inIteration) && IsCollectionSpec(def, inIteration)[k] == COLLECTION
  {
    ExploreIsPathWitness(def, map[], true, k);
    assert Witness(p, k, map[], true);
  }

  // ---------------------------------------------------------------------------
  // Alternatives: the union does not depend on their order.

  lemma {:induction false} ExploreAltsIsUnion(alts: seq<Alternative>, rest: seq<Production>,
                                              counts: map<string, nat>, iter: bool, k: string)
    ensures k in ExploreAlts(alts, rest, counts, iter) <==>
              exists i :: 0 <= i < |alts| && k in Explore(alts[i].definition + rest, counts, iter)
    decreases |alts|
  {
    if alts != [] {
      ExploreAltsIsUnion(alts[1..], rest, counts, iter, k);
      if exists i :: 0 <= i < |alts| && k in Explore(alts[i].definition + rest, counts, iter) {
        var i :| 0 <= i < |alts| && k in Explore(alts[i].definition + rest, counts, iter);
        if i > 0 {
          assert alts[1..][i - 1] == alts[i];
        }
      }
      if k in ExploreAlts(alts[1..], rest, counts, iter) {
        var j :| 0 <= j < |alts[1..]| && k in Explore(alts[1..][j].definition + rest, counts, iter);
        assert alts[j + 1] == alts[1..][j];
      }
    }
  }

  /** Exploring the alternatives of an alternation in any order (any sequence
      with the same alternatives) marks the same keys. */
  lemma AlternativeOrderIrrelevant(alts1: seq<Alternative>, alts2: seq<Alternative>, rest: seq<Production>,
                                   counts: map<string, nat>, iter: bool)
    requires forall a :: a in alts1 <==> a in alts2
    ensures Explore([Alternation(alts1)] + rest, counts, iter) == Explore([Alternation(alts2)] + rest, counts, iter)
  {
    assert ([Alternation(alts1)] + rest)[1..] == rest;
    assert ([Alternation(alts2)] + rest)[1..] == rest;
    forall k | true
      ensures k in ExploreAlts(alts1, rest, counts, iter) <==> k in ExploreAlts(alts2, rest, counts, iter)
    {
      ExploreAltsIsUnion(alts1, rest, counts, iter, k);
      ExploreAltsIsUnion(alts2, rest, counts, iter, k);
      if k in ExploreAlts(alts1, rest, counts, iter) {
        var i :| 0 <= i < |alts1| && k in Explore(alts1[i].definition + rest, counts, iter);
        assert alts1[i] in alts2;
        var j :| 0 <= j < |alts2| && alts2[j] == alts1[i];
      }
      if k in ExploreAlts(alts2, rest, counts, iter) {
        var i :| 0 <= i < |alts2| && k in Explore(alts2[i].definition + rest, counts, iter);
        assert alts2[i] in alts1;
        var j :| 0 <= j < |alts1| && alts1[j] == alts2[i];
      }
    }
  }

  // ---------------------------------------------------------------------------
  // Worked examples.

  /** A, B, A: A is a collection, B is not. */
  lemma ExampleRepeatedTerminal()
    ensures IsCollectionSpec([Terminal("A"), Terminal("B"), Terminal("A")], []) == map["A" := COLLECTION, "B" := NONE]
  {
    var def := [Terminal("A"), Terminal("B"), Terminal("A")];
    assert def[1..] == [Terminal("B"), Terminal("A")];
    assert def[1..][1..] == [Terminal("A")];
    assert Keys(def, false) == {"A", "B"};
    assert Explore(def, map[], false) == {"A"};
  }

  /** A, B: neither is a collection. */
  lemma ExampleDistinctTerminals()
    ensures IsCollectionSpec([Terminal("A"), Terminal("B")], []) == map["A" := NONE, "B" := NONE]
  {
    var def := [Terminal("A"), Terminal("B")];
    assert def[1..] == [Terminal("B")];
    assert Keys(def, false) == {"A", "B"};
    assert Explore(def, map[], false) == {};
  }

  /** A once in each of two alternatives stays NONE. */
  lemma ExampleExclusiveAlternatives()
    ensures IsCollectionSpec([Alternation([Alternative([Terminal("A")]), Alternative([Terminal("A"), Terminal("B")])])], [])
            == map["A" := NONE, "B" := NONE]
  {
    var alts := [Alternative([Terminal("A")]), Alternative([Terminal("A"), Terminal("B")])];
    var def := [Alternation(alts)];
    assert def[1..] == [];
    assert alts[0].definition + [] == [Terminal("A")];
    assert alts[1].definition + [] == [Terminal("A"), Terminal("B")];
    assert [Terminal("A"), Terminal("B")][1..] == [Terminal("B")];
    assert alts[1..][0] == alts[1];
    assert Keys(def, false) == {"A", "B"};
    assert Explore(def, map[], false) == {};
  }

  /** A key inside a repetition, consumed once per body, stays NONE: the
      iteration flag is only read from the (empty) argument. */
  lemma ExampleRepetitionBodyStaysNone()
    ensures IsCollectionSpec([Repetition([Terminal("A")])], []) == map["A" := NONE]
  {
    var def := [Repetition([Terminal("A")])];
    assert def[1..] == [];
    assert [Terminal("A")] + [] == [Terminal("A")];
    assert Keys(def, false) == {"A"};
    assert Explore(def, map[], false) == {};
  }

  /** The second repetition of ExampleSharedSeparator, entered after one
      separator and one X were consumed. */
  lemma SharedSeparatorTail()
    ensures Explore([RepetitionWithSeparator([Terminal("Y")], ",")], map["," := 1, "X" := 1], false) == {","}
  {
    var y := [RepetitionWithSeparator([Terminal("Y")], ",")];
    var c2: map<string, nat> := map["," := 1, "X" := 1];
    var c3: map<string, nat> := c2["," := 2];
    assert [Terminal("Y")][1..] == [];
    assert Explore([Terminal("Y")], c3, false) == {};
    assert [Terminal(","), Terminal("Y")][1..] == [Terminal("Y")];
    assert Explore([Terminal(","), Terminal("Y")], c2, false) == {","};
    assert [Terminal(",")] + [Terminal("Y")] == [Terminal(","), Terminal("Y")];
    assert [Repetition([Terminal(","), Terminal("Y")])][1..] == [];
    assert [Terminal(","), Terminal("Y")] + [] == [Terminal(","), Terminal("Y")];
    assert Explore([Repetition([Terminal(","), Terminal("Y")])], c2, false) == {","};
    assert y[1..] == [] && [SeparatorRewrite([Terminal("Y")], ",")] + [] == [Repetition([Terminal(","), Terminal("Y")])];
  }

  /** Two separator repetitions sharing a separator: the separator is never
      seeded, yet the exploration adds it as COLLECTION. */
  lemma ExampleSharedSeparator()
    ensures IsCollectionSpec([RepetitionWithSeparator([Terminal("X")], ","),
                              RepetitionWithSeparator([Terminal("Y")], ",")], [])
            == map["X" := NONE, "Y" := NONE, "," := COLLECTION]
  {
    var y := [RepetitionWithSeparator([Terminal("Y")], ",")];
    var def := [RepetitionWithSeparator([Terminal("X")], ",")] + y;
    SharedSeparatorTail();
    assert ([Terminal("X")] + y)[1..] == y;
    assert map[","  := 1]["X" := 1] == map["," := 1, "X" := 1];
    assert Explore([Terminal("X")] + y, map["," := 1], false) == {","};
    assert ([Terminal(","), Terminal("X")] + y)[1..] == [Terminal("X")] + y;
    assert Explore([Terminal(","), Terminal("X")] + y, map[], false) == {","};
    assert ([Repetition([Terminal(","), Terminal("X")])] + y)[1..] == y;
    assert [Terminal(",")] + [Terminal("X")] == [Terminal(","), Terminal("X")];
    assert Explore([Repetition([Terminal(","), Terminal("X")])] + y, map[], false) == {","};
    assert def[1..] == y;
    assert Explore(def, map[], false) == {","};
    assert Keys(def, false) == {"X", "Y"};
  }
}
