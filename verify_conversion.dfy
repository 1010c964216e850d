/**
 * Column discovery of the conversion check: selecting column names by
 * substring patterns, and the per-dataset presence of a variable.
 */
module VerifyConversion {
  import opened Sequences

  predicate IsUpper(c: char)
  {
    'A' <= c <= 'Z'
  }

  /** `str.lower` on one character (ASCII letters only). */
  function LowerChar(c: char): (d: char)
    ensures !IsUpper(d)
    ensures !IsUpper(c) ==> d == c
    ensures IsUpper(c) ==> d as int == c as int + 32
  {
    if IsUpper(c) then (c as int + 32) as char else c
  }

  /** `str.lower`: the same length, no upper-case letter left, everything else unchanged. */
  function Lower(s: string): (r: string)
    ensures |r| == |s|
    ensures forall i :: 0 <= i < |r| ==> !IsUpper(r[i])
    ensures forall i :: 0 <= i < |r| && !IsUpper(s[i]) ==> r[i] == s[i]
    ensures forall i :: 0 <= i < |s| && IsUpper(s[i]) ==> r[i] as int == s[i] as int + 32
  {
    seq(|s|, i requires 0 <= i < |s| => LowerChar(s[i]))
  }

  /** Lower-casing twice is lower-casing once. */
  lemma LowerIdempotent(s: string)
    ensures Lower(Lower(s)) == Lower(s)
  {
    var l := Lower(s);
    assert forall i :: 0 <= i < |l| ==> Lower(l)[i] == l[i];
  }

  /** Python's `p in s` on strings: `p` occurs as a contiguous piece of `s`. */
  predicate Contains(s: string, p: string)
  {
    exists k | 0 <= k <= |s| - |p| :: OccursAt(s, p, k)
  }

  predicate OccursAt(s: string, p: string, k: nat)
  {
    k + |p| <= |s| && s[k..k + |p|] == p
  }

  /** `any(pattern in col.lower() for pattern in patterns)` */
  predicate MatchesAny(col: string, patterns: seq<string>)
  {
    exists p | p in patterns :: Contains(Lower(col), p)
  }

  /** The columns that match some pattern, in column order, each position once. */
  function SelectMatching(columns: seq<string>, patterns: seq<string>): seq<string>
  {
    if columns == [] then []
    else
      var kept := SelectMatching(columns[..|columns| - 1], patterns);
      var col := columns[|columns| - 1];
      if MatchesAny(col, patterns) then kept + [col] else kept
  }

  /** The selection keeps the column order: it is a subsequence of the columns. */
  lemma {:induction false} SelectMatchingSubsequence(columns: seq<string>, patterns: seq<string>)
    ensures IsSubsequence(SelectMatching(columns, patterns), columns)
  {
    if columns != [] {
      var pre := columns[..|columns| - 1];
      SelectMatchingSubsequence(pre, patterns);
      var r := SelectMatching(columns, patterns);
      if MatchesAny(columns[|columns| - 1], patterns) {
        assert r[..|r| - 1] == SelectMatching(pre, patterns);
      }
    }
  }

  /** A matching name occurs as often as among the columns (once per column, not once per pattern); a non-matching one not at all. */
  lemma {:induction false} SelectMatchingMultiplicity(columns: seq<string>, patterns: seq<string>, c: string)
    ensures multiset(SelectMatching(columns, patterns))[c] == if MatchesAny(c, patterns) then multiset(columns)[c] else 0
  {
    if columns != [] {
      var pre := columns[..|columns| - 1];
      SelectMatchingMultiplicity(pre, patterns, c);
      assert columns == pre + [columns[|columns| - 1]];
    }
  }

  /** A column is selected if and only if some pattern occurs in its lower-cased name. */
  lemma SelectMatchingMembership(columns: seq<string>, patterns: seq<string>, c: string)
    ensures c in SelectMatching(columns, patterns) <==> c in columns && MatchesAny(c, patterns)
  {
    SelectMatchingMultiplicity(columns, patterns, c);
    assert c in SelectMatching(columns, patterns) <==> c in multiset(SelectMatching(columns, patterns));
    assert c in columns <==> c in multiset(columns);
  }

  /** `find_variables`: scan the columns, appending each one that matches some pattern. */
  method FindVariables(columns: seq<string>, patterns: seq<string>) returns (matches: seq<string>)
    ensures matches == SelectMatching(columns, patterns)
    ensures IsSubsequence(matches, columns)
    ensures forall c :: c in matches <==> c in columns && MatchesAny(c, patterns)
  {
    matches := [];
    for i := 0 to |columns|
      invariant matches == SelectMatching(columns[..i], patterns)
    {
      var col := columns[i];
      assert columns[..i + 1][..i] == columns[..i];
      if MatchesAny(col, patterns) {
        matches := matches + [col];
      }
    }
    assert columns[..|columns|] == columns;
    SelectMatchingSubsequence(columns, patterns);
    forall c ensures c in matches <==> c in columns && MatchesAny(c, patterns) {
      SelectMatchingMembership(columns, patterns, c);
    }
  }

  /** With no patterns nothing matches: `any` over nothing is false. */
  lemma {:induction false} NoPatternsSelectNothing(columns: seq<string>)
    ensures SelectMatching(columns, []) == []
  {
    if columns != [] {
      NoPatternsSelectNothing(columns[..|columns| - 1]);
    }
  }

  /** The empty pattern occurs in every name, so it selects every column. */
  lemma {:induction false} EmptyPatternSelectsAll(columns: seq<string>, patterns: seq<string>)
    requires "" in patterns
    ensures SelectMatching(columns, patterns) == columns
  {
    if columns != [] {
      var pre := columns[..|columns| - 1];
      EmptyPatternSelectsAll(pre, patterns);
      var col := columns[|columns| - 1];
      assert OccursAt(Lower(col), "", 0);
      assert MatchesAny(col, patterns);
      assert pre + [col] == columns;
    }
  }

  /** Only the column side is lower-cased, so a pattern with an upper-case letter never occurs. */
  lemma UpperCasePatternNeverMatches(col: string, p: string, j: nat)
    requires j < |p| && IsUpper(p[j])
    ensures !Contains(Lower(col), p)
  {
    var l := Lower(col);
    forall k | 0 <= k <= |l| - |p| ensures !OccursAt(l, p, k) {
      assert l[k..k + |p|][j] == l[k + j] != p[j];
    }
  }

  /** Matching ignores the case of the column name: a column and its lower-cased form match the same patterns. */
  lemma MatchingIgnoresColumnCase(col: string, patterns: seq<string>)
    ensures MatchesAny(col, patterns) <==> MatchesAny(Lower(col), patterns)
  {
    LowerIdempotent(col);
  }

  /** `check_variable_presence`: for each dataset, whether the name is exactly one of its columns. */
  function Presence(datasets: map<string, seq<string>>, name: string): (r: map<string, bool>)
    ensures r.Keys == datasets.Keys
    ensures forall d :: d in r ==> (r[d] <==> exists i :: 0 <= i < |datasets[d]| && datasets[d][i] == name)
  {
    map d | d in datasets :: name in datasets[d]
  }

  /** Presence is case-sensitive where pattern search is not: `s007_01` is absent from a dataset whose column is `S007_01`, which the pattern `s007` still finds. */
  lemma PresenceIsCaseSensitive()
    ensures Presence(map["WVS" := ["S007_01"]], "s007_01")["WVS"] == false
    ensures SelectMatching(["S007_01"], ["s007"]) == ["S007_01"]
  {
    var d := map["WVS" := ["S007_01"]];
    assert "s007_01" != "S007_01";
    assert Lower("S007_01")[0..4] == "s007";
    assert OccursAt(Lower("S007_01"), "s007", 0);
    assert Contains(Lower("S007_01"), "s007");
    assert "s007" in ["s007"];
    assert MatchesAny("S007_01", ["s007"]);
    assert ["S007_01"][..0] == [];
  }
}
