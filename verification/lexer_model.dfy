/** The values the lexer's definition analysis works on: token classes, their
    patterns and groups, and the definition errors it reports. */
module LexerModel {
  import opened Base

  /** A regular expression, kept opaque: the analysis only reads its source
      text and its flags, never matches with it. */
  datatype Regex = Regex(source: string, ignoreCase: bool, multiline: bool, global: bool)

  /** The source text of `Lexer.NA`. */
  const NA_SOURCE: string := "NOT_APPLICABLE"

  /** A token class's PATTERN property: absent, the `Lexer.NA` marker (itself
      a RegExp), a RegExp, or a value of another type. */
  datatype PatternValue = PatternAbsent | NA | Re(regex: Regex) | NotRegExp

  predicate IsRegExp(p: PatternValue) {
    p.NA? || p.Re?
  }

  function AsRegex(p: PatternValue): Regex
    requires IsRegExp(p)
  {
    if p.NA? then Regex(NA_SOURCE, false, false, false) else p.regex
  }

  /** `pattern.source`: the source of a RegExp, `undefined` (None) otherwise. */
  function PatternSource(p: PatternValue): Option<string> {
    if IsRegExp(p) then Some(AsRegex(p).source) else None
  }

  /** The text of `Lexer.SKIPPED`, a string group name with a special meaning. */
  const SKIPPED: string := "SKIPPED"

  /** A token class's GROUP property: absent, present but undefined, a string
      (possibly SKIPPED), the `Lexer.NA` marker, or a value of another type. */
  datatype GroupValue = GroupAbsent | GroupUndefined | GroupString(groupName: string) | GroupNA | GroupOther

  /** A token class with the static properties the analysis reads. `isLazy`
      and `isSimple` stand for `isLazyTokenType` / `isSimpleTokenType`;
      `popMode` says whether the class HAS a POP_MODE property. */
  datatype TokenClass = TokenClass(name: string, pattern: PatternValue, group: GroupValue,
                                   longerAlt: Option<TokenClass>, pushMode: Option<string>,
                                   popMode: bool, isLazy: bool, isSimple: bool)

  datatype ErrorType =
    | MissingPattern
    | InvalidPattern
    | EoiAnchorFound
    | UnsupportedFlagsFound
    | DuplicatePatternsFound
    | InvalidGroupTypeFound
    | PushModeDoesNotExist
    | MultiModeLexerWithoutDefaultMode
    | MultiModeLexerWithoutModesProperty
    | MultiModeLexerDefaultModeValueDoesNotExist
    | LexerDefinitionCannotContainUndefined
    | LexerDefinitionCannotMixLazyAndNotLazy
    | LexerDefinitionCannotMixSimpleAndNotSimple

  /** A definition error: its type and what its message names. */
  datatype LexerDefinitionError =
    | ClassError(errorType: ErrorType, tokenClasses: seq<TokenClass>)
    | DefinitionError(errorType: ErrorType)
    | UndefinedEntry(mode: string, index: nat)
    | MixError(errorType: ErrorType, withProperty: seq<string>, withoutProperty: seq<string>)

  function TypeOf(e: LexerDefinitionError): ErrorType {
    if e.UndefinedEntry? then LexerDefinitionCannotContainUndefined else e.errorType
  }

  /** The outcome of a filter step: its errors and the classes that pass. */
  datatype FilterResult = FilterResult(errors: seq<LexerDefinitionError>, valid: seq<TokenClass>)

  // ---------------------------------------------------------------------------
  // Generic list helpers

  /** `indexOf`: the first position of `x` in `s`, or -1. */
  function IndexOf<T(==)>(s: seq<T>, x: T): (r: int)
    ensures -1 <= r < |s|
    ensures r == -1 <==> x !in s
    ensures r >= 0 ==> s[r] == x && forall j :: 0 <= j < r ==> s[j] != x
  {
    if s == [] then -1
    else if s[0] == x then 0
    else
      var r := IndexOf(s[1..], x);
      if r == -1 then -1 else r + 1
  }

  /** Position `i` holds the last occurrence of its value. */
  predicate LastOf<K(==)>(keys: seq<K>, i: int) {
    0 <= i < |keys| && forall j :: i < j < |keys| ==> keys[j] != keys[i]
  }

  /** `zipObject`: the object built by assigning `values[i]` to `keys[i]` in
      order, so a later key replaces an earlier equal one. */
  function ZipLast<K(==), V>(keys: seq<K>, values: seq<V>): map<K, V>
    requires |keys| == |values|
  {
    if keys == [] then map[]
    else ZipLast(keys[..|keys| - 1], values[..|values| - 1])[keys[|keys| - 1] := values[|values| - 1]]
  }

  /** The zipped object has exactly the given keys, each with the value at
      its last occurrence. */
  lemma {:induction false} ZipLastLookup<K, V>(keys: seq<K>, values: seq<V>)
    requires |keys| == |values|
    ensures ZipLast(keys, values).Keys == set k | k in keys
    ensures forall i :: LastOf(keys, i) ==> ZipLast(keys, values)[keys[i]] == values[i]
  {
    if keys != [] {
      var n := |keys| - 1;
      ZipLastLookup(keys[..n], values[..n]);
      assert keys == keys[..n] + [keys[n]];
      forall i | LastOf(keys, i)
        ensures ZipLast(keys, values)[keys[i]] == values[i]
      {
        if i < n {
          assert keys[..n][i] == keys[i];
          assert LastOf(keys[..n], i);
        }
      }
    }
  }

  /** Every key has a last occurrence. */
  lemma LastOccurrence<K>(keys: seq<K>, k: K) returns (i: int)
    requires k in keys
    ensures LastOf(keys, i) && keys[i] == k
  {
    i := |keys| - 1;
    while keys[i] != k
      invariant 0 <= i < |keys|
      invariant forall j :: i < j < |keys| ==> keys[j] != k
      decreases i
    {
      assert k in keys[..i] by {
        var m :| 0 <= m < |keys| && keys[m] == k;
        assert keys[..i][m] == k;
      }
      i := i - 1;
    }
  }

  predicate NoDuplicates<T(==)>(s: seq<T>) {
    forall i, j :: 0 <= i < j < |s| ==> s[i] != s[j]
  }
}
