/** `findDuplicatePatterns`: equivalence sets of token classes sharing one
    pattern source, built with a shared `found` list so that each class joins
    at most one set. */
module DuplicatePatterns {
  import opened Base
  import opened LexerModel

  /** The inner reduce's test: same source as the outer class, not yet
      placed in a set, and not the NA marker. */
  predicate Joins(c: TokenClass, src: Option<string>, found: seq<TokenClass>) {
    PatternSource(c.pattern) == src && c !in found && !c.pattern.NA?
  }

  /** One pass of the inner reduce over `inner` for an outer class with source
      `src`: the set it collects and the extended `found` list. */
  function Collect(src: Option<string>, inner: seq<TokenClass>, found: seq<TokenClass>)
    : (seq<TokenClass>, seq<TokenClass>)
  {
    if inner == [] then ([], found)
    else
      var (r, f) := Collect(src, inner[..|inner| - 1], found);
      var c := inner[|inner| - 1];
      if Joins(c, src, f) then (r + [c], f + [c]) else (r, f)
  }

  /** The outer map over the first `n` classes: one (possibly empty) set per
      outer class, and the `found` list afterwards. */
  function IdenticalSets(classes: seq<TokenClass>, n: nat): (r: (seq<seq<TokenClass>>, seq<TokenClass>))
    requires n <= |classes|
    ensures |r.0| == n
  {
    if n == 0 then ([], [])
    else
      var (sets, f) := IdenticalSets(classes, n - 1);
      var (s, f') := Collect(PatternSource(classes[n - 1].pattern), classes, f);
      (sets + [s], f')
  }

  /** One DUPLICATE_PATTERNS_FOUND error per set of more than one class. */
  function ReportDuplicates(sets: seq<seq<TokenClass>>): (errors: seq<LexerDefinitionError>)
    ensures forall e :: e in errors ==> e.ClassError? && e.errorType == DuplicatePatternsFound
  {
    if sets == [] then []
    else
      var s := sets[|sets| - 1];
      ReportDuplicates(sets[..|sets| - 1]) + (if |s| > 1 then [ClassError(DuplicatePatternsFound, s)] else [])
  }

  /** The errors `findDuplicatePatterns` returns. */
  function DuplicatePatternErrors(classes: seq<TokenClass>): (errors: seq<LexerDefinitionError>)
    ensures forall e :: e in errors ==> e.ClassError? && e.errorType == DuplicatePatternsFound
  {
    ReportDuplicates(IdenticalSets(classes, |classes|).0)
  }

  function Members(e: LexerDefinitionError): seq<TokenClass> {
    if e.ClassError? then e.tokenClasses else []
  }

  predicate Disjoint(sets: seq<seq<TokenClass>>) {
    forall i, j, c :: 0 <= i < j < |sets| && c in sets[i] ==> c !in sets[j]
  }

  predicate DisjointErrors(errors: seq<LexerDefinitionError>) {
    forall i, j, c :: 0 <= i < j < |errors| && c in Members(errors[i]) ==> c !in Members(errors[j])
  }

  /** A set of classes sharing the source of its first member, none of them NA. */
  predicate SameSource(s: seq<TokenClass>) {
    forall c :: c in s ==> !c.pattern.NA? && |s| > 0 && PatternSource(c.pattern) == PatternSource(s[0].pattern)
  }

  // ---------------------------------------------------------------------------
  // Properties of one inner pass

  lemma {:induction false} CollectFacts(src: Option<string>, inner: seq<TokenClass>, found: seq<TokenClass>)
    ensures Collect(src, inner, found).1 == found + Collect(src, inner, found).0
    ensures forall c :: c in Collect(src, inner, found).0 ==>
              c in inner && PatternSource(c.pattern) == src && !c.pattern.NA? && c !in found
    ensures NoDuplicates(Collect(src, inner, found).0)
    ensures forall c :: c in inner && PatternSource(c.pattern) == src && !c.pattern.NA? ==>
              c in Collect(src, inner, found).1
  {
    if inner != [] {
      var init := inner[..|inner| - 1];
      var c := inner[|inner| - 1];
      CollectFacts(src, init, found);
      assert inner == init + [c];
    }
  }

  // ---------------------------------------------------------------------------
  // Properties of the outer pass

  function Sets(classes: seq<TokenClass>, n: nat): (sets: seq<seq<TokenClass>>)
    requires n <= |classes|
    ensures |sets| == n
  {
    IdenticalSets(classes, n).0
  }

  function Found(classes: seq<TokenClass>, n: nat): seq<TokenClass>
    requires n <= |classes|
  {
    IdenticalSets(classes, n).1
  }

  /** Some class among the first `n` has the source of `c`. */
  predicate SourceSeen(classes: seq<TokenClass>, n: nat, c: TokenClass)
    requires n <= |classes|
  {
    exists k :: 0 <= k < n && PatternSource(classes[k].pattern) == PatternSource(c.pattern)
  }

  /** One step of the outer map, with the facts of its inner pass. */
  lemma OuterStep(classes: seq<TokenClass>, n: nat)
    requires 0 < n <= |classes|
    ensures Sets(classes, n) == Sets(classes, n - 1) + [Collect(PatternSource(classes[n - 1].pattern), classes, Found(classes, n - 1)).0]
    ensures Found(classes, n) == Found(classes, n - 1) + Sets(classes, n)[n - 1]
    ensures forall c :: c in Sets(classes, n)[n - 1] ==>
              c in classes && PatternSource(c.pattern) == PatternSource(classes[n - 1].pattern)
              && !c.pattern.NA? && c !in Found(classes, n - 1)
    ensures NoDuplicates(Sets(classes, n)[n - 1])
    ensures forall c ::
              (c in classes && PatternSource(c.pattern) == PatternSource(classes[n - 1].pattern) && !c.pattern.NA?)
              ==> c in Found(classes, n)
  {
    CollectFacts(PatternSource(classes[n - 1].pattern), classes, Found(classes, n - 1));
  }

  /** `found` holds exactly the non-NA classes whose source some processed
      outer class has, and every set is part of it. */
  lemma {:induction false} FoundFacts(classes: seq<TokenClass>, n: nat)
    requires n <= |classes|
    ensures |Sets(classes, n)| == n
    ensures forall c :: c in Found(classes, n) <==> c in classes && !c.pattern.NA? && SourceSeen(classes, n, c)
    ensures forall i, c :: 0 <= i < n && c in Sets(classes, n)[i] ==> c in Found(classes, n)
  {
    if n > 0 {
      FoundFacts(classes, n - 1);
      OuterStep(classes, n);
      forall c | c in classes && !c.pattern.NA? && SourceSeen(classes, n, c)
        ensures c in Found(classes, n)
      {
        var k :| 0 <= k < n && PatternSource(classes[k].pattern) == PatternSource(c.pattern);
        if k < n - 1 {
          assert SourceSeen(classes, n - 1, c);
        }
      }
      forall i, c | 0 <= i < n && c in Sets(classes, n)[i]
        ensures c in Found(classes, n)
      {
        if i < n - 1 {
          assert Sets(classes, n)[i] == Sets(classes, n - 1)[i];
        }
      }
    }
  }

  /** Every set is duplicate-free and made of non-NA classes with the source
      of its outer class. */
  lemma {:induction false} SetsWellFormed(classes: seq<TokenClass>, n: nat)
    requires n <= |classes|
    ensures |Sets(classes, n)| == n
    ensures forall i :: 0 <= i < n ==> NoDuplicates(Sets(classes, n)[i])
    ensures forall i, c :: 0 <= i < n && c in Sets(classes, n)[i] ==>
              c in classes && !c.pattern.NA? && PatternSource(c.pattern) == PatternSource(classes[i].pattern)
  {
    if n > 0 {
      SetsWellFormed(classes, n - 1);
      OuterStep(classes, n);
      forall i | 0 <= i < n - 1
        ensures Sets(classes, n)[i] == Sets(classes, n - 1)[i]
      {
      }
    }
  }

  /** No class is in two sets. */
  lemma {:induction false} SetsDisjoint(classes: seq<TokenClass>, n: nat)
    requires n <= |classes|
    ensures Disjoint(Sets(classes, n))
  {
    if n > 0 {
      SetsDisjoint(classes, n - 1);
      FoundFacts(classes, n - 1);
      OuterStep(classes, n);
      var sets, sets' := Sets(classes, n - 1), Sets(classes, n);
      forall i, j, c | 0 <= i < j < n && c in sets'[i]
        ensures c !in sets'[j]
      {
        assert sets'[i] == sets[i];
        if j < n - 1 {
          assert sets'[j] == sets[j];
        } else {
          assert c in Found(classes, n - 1);
        }
      }
    }
  }

  /** A class found before step `n` that shares its source with a class `d`
      found by then had `d` found before step `n` too. */
  lemma {:induction false} FoundEarlier(classes: seq<TokenClass>, n: nat, c: TokenClass, d: TokenClass)
    requires 0 < n <= |classes|
    requires c in Found(classes, n - 1) && d in Found(classes, n)
    requires PatternSource(c.pattern) == PatternSource(d.pattern)
    ensures d in Found(classes, n - 1)
  {
    FoundMember(classes, n - 1, c);
    FoundMember(classes, n, d);
    SeenShared(classes, n - 1, c, d);
    FoundIntro(classes, n - 1, d);
  }

  lemma FoundMember(classes: seq<TokenClass>, n: nat, d: TokenClass)
    requires n <= |classes| && d in Found(classes, n)
    ensures d in classes && !d.pattern.NA? && SourceSeen(classes, n, d)
  {
    FoundFacts(classes, n);
  }

  lemma FoundIntro(classes: seq<TokenClass>, n: nat, d: TokenClass)
    requires n <= |classes| && d in classes && !d.pattern.NA? && SourceSeen(classes, n, d)
    ensures d in Found(classes, n)
  {
    FoundFacts(classes, n);
  }

  lemma SeenShared(classes: seq<TokenClass>, n: nat, c: TokenClass, d: TokenClass)
    requires n <= |classes| && SourceSeen(classes, n, c)
    requires PatternSource(c.pattern) == PatternSource(d.pattern)
    ensures SourceSeen(classes, n, d)
  {
  }

  /** Two found classes of one source were placed in the same set. */
  lemma {:induction false} SameSourceSameSet(classes: seq<TokenClass>, n: nat, c: TokenClass, d: TokenClass)
    requires n <= |classes|
    requires c in Found(classes, n) && d in Found(classes, n)
    requires PatternSource(c.pattern) == PatternSource(d.pattern)
    ensures exists i :: 0 <= i < n && c in Sets(classes, n)[i] && d in Sets(classes, n)[i]
  {
    if n > 0 {
      OuterStep(classes, n);
      var f, s := Found(classes, n - 1), Sets(classes, n)[n - 1];
      if c in f && d in f {
        SameSourceSameSet(classes, n - 1, c, d);
        var i :| 0 <= i < n - 1 && c in Sets(classes, n - 1)[i] && d in Sets(classes, n - 1)[i];
        assert Sets(classes, n)[i] == Sets(classes, n - 1)[i];
      } else if c in f {
        FoundEarlier(classes, n, c, d);
      } else if d in f {
        FoundEarlier(classes, n, d, c);
      } else {
        assert c in s && d in s;
      }
    }
  }

  // ---------------------------------------------------------------------------
  // From the sets to the reported errors

  lemma {:induction false} ReportDuplicatesFacts(sets: seq<seq<TokenClass>>)
    ensures forall e :: e in ReportDuplicates(sets) ==>
              e.ClassError? && e.errorType == DuplicatePatternsFound && e.tokenClasses in sets && |e.tokenClasses| > 1
    ensures forall s :: s in sets && |s| > 1 ==> ClassError(DuplicatePatternsFound, s) in ReportDuplicates(sets)
    ensures Disjoint(sets) ==> DisjointErrors(ReportDuplicates(sets))
  {
    if sets != [] {
      var init := sets[..|sets| - 1];
      var s := sets[|sets| - 1];
      ReportDuplicatesFacts(init);
      assert sets == init + [s];
      if Disjoint(sets) {
        assert Disjoint(init) by {
          forall i, j, c | 0 <= i < j < |init| && c in init[i]
            ensures c !in init[j]
          {
            assert init[i] == sets[i] && init[j] == sets[j];
          }
        }
        var es := ReportDuplicates(init);
        var es' := ReportDuplicates(sets);
        forall i, j, c | 0 <= i < j < |es'| && c in Members(es'[i])
          ensures c !in Members(es'[j])
        {
          if j < |es| {
            assert es'[i] == es[i] && es'[j] == es[j];
          } else {
            assert es'[i] == es[i] && es'[j] == ClassError(DuplicatePatternsFound, s);
            assert es[i] in es;
            var k :| 0 <= k < |init| && init[k] == es[i].tokenClasses;
            assert sets[k] == init[k];
          }
        }
      }
    }
  }

  /** What `findDuplicatePatterns` reports:
      - every reported set has at least two members, all distinct, none NA,
        all sharing one pattern source;
      - no class appears in two reported sets;
      - any two distinct non-NA classes with the same source are reported
        together in one set. */
  lemma DuplicatePatternsProperties(classes: seq<TokenClass>)
    ensures forall e :: e in DuplicatePatternErrors(classes) ==>
              e.ClassError? && e.errorType == DuplicatePatternsFound && |e.tokenClasses| >= 2
              && NoDuplicates(e.tokenClasses) && SameSource(e.tokenClasses)
              && forall c :: c in e.tokenClasses ==> c in classes
    ensures DisjointErrors(DuplicatePatternErrors(classes))
    ensures forall c, d :: c in classes && d in classes && c != d && !c.pattern.NA? && !d.pattern.NA?
                           && PatternSource(c.pattern) == PatternSource(d.pattern) ==>
              exists e :: e in DuplicatePatternErrors(classes) && c in Members(e) && d in Members(e)
  {
    var n := |classes|;
    var sets := Sets(classes, n);
    SetsWellFormed(classes, n);
    SetsDisjoint(classes, n);
    ReportDuplicatesFacts(sets);
    forall e | e in DuplicatePatternErrors(classes)
      ensures NoDuplicates(e.tokenClasses) && SameSource(e.tokenClasses)
      ensures forall c :: c in e.tokenClasses ==> c in classes
    {
      var i :| 0 <= i < n && sets[i] == e.tokenClasses;
      assert e.tokenClasses[0] in sets[i];
    }
    forall c, d | c in classes && d in classes && c != d && !c.pattern.NA? && !d.pattern.NA?
                  && PatternSource(c.pattern) == PatternSource(d.pattern)
      ensures exists e :: e in DuplicatePatternErrors(classes) && c in Members(e) && d in Members(e)
    {
      DuplicatePair(classes, c, d);
    }
  }

  /** Every non-NA class ends up found. */
  lemma AllFound(classes: seq<TokenClass>, c: TokenClass)
    requires c in classes && !c.pattern.NA?
    ensures c in Found(classes, |classes|)
  {
    FoundFacts(classes, |classes|);
    var k :| 0 <= k < |classes| && classes[k] == c;
    assert SourceSeen(classes, |classes|, c);
  }

  lemma DuplicatePair(classes: seq<TokenClass>, c: TokenClass, d: TokenClass)
    requires c in classes && d in classes && c != d && !c.pattern.NA? && !d.pattern.NA?
    requires PatternSource(c.pattern) == PatternSource(d.pattern)
    ensures exists e :: e in DuplicatePatternErrors(classes) && c in Members(e) && d in Members(e)
  {
    var n := |classes|;
    var sets := Sets(classes, n);
    AllFound(classes, c);
    AllFound(classes, d);
    SameSourceSameSet(classes, n, c, d);
    var i :| 0 <= i < n && c in sets[i] && d in sets[i];
    assert |sets[i]| > 1;
    assert sets[i] in sets;
    ReportDuplicatesFacts(sets);
    var e := ClassError(DuplicatePatternsFound, sets[i]);
    assert e in DuplicatePatternErrors(classes);
    assert c in Members(e) && d in Members(e);
  }
}
