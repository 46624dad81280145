/** The coverage checks of the workflow evidence verifier. */
module EvidenceCoverage {
  /** Commitments are compared after normalisation, that is, as numbers. */
  datatype CoverageEntry = CoverageEntry(workflow: string, agreementId: string, commitment: nat)

  /** Array.find by workflow name: the first match. */
  function Find(coverage: seq<CoverageEntry>, workflow: string): (found: seq<CoverageEntry>)
    ensures |found| <= 1
    ensures found == [] <==> forall e | e in coverage :: e.workflow != workflow
    ensures found != [] ==> found[0] in coverage && found[0].workflow == workflow
  {
    if coverage == [] then []
    else if coverage[0].workflow == workflow then [coverage[0]]
    else
      var rest := Find(coverage[1..], workflow);
      assert forall e | e in coverage :: e == coverage[0] || e in coverage[1..];
      rest
  }

  /** Equal lengths, and for each expected workflow a first match with its agreement and commitment. */
  predicate Covers(expected: seq<CoverageEntry>, coverage: seq<CoverageEntry>) {
    && |coverage| == |expected|
    && forall i | 0 <= i < |expected| :: Find(coverage, expected[i].workflow) == [expected[i]]
  }

  ghost predicate DistinctNames(entries: seq<CoverageEntry>) {
    forall i, j | 0 <= i < j < |entries| :: entries[i].workflow != entries[j].workflow
  }

  /** A collection whose members all occur in an equally long list is that list, once each. */
  lemma {:induction false} ContainmentIsPermutation(expected: seq<CoverageEntry>, coverage: seq<CoverageEntry>)
    requires |expected| == |coverage| && DistinctNames(expected)
    requires forall i | 0 <= i < |expected| :: expected[i] in coverage
    ensures multiset(expected) == multiset(coverage)
  {
    if expected != [] {
      var n := |expected| - 1;
      var k :| 0 <= k < |coverage| && coverage[k] == expected[n];
      var others := coverage[..k] + coverage[k + 1..];
      assert coverage == coverage[..k] + [coverage[k]] + coverage[k + 1..];
      assert expected == expected[..n] + [expected[n]];
      forall i | 0 <= i < n ensures expected[..n][i] in others {
        assert expected[i] in coverage && expected[i] != coverage[k];
      }
      ContainmentIsPermutation(expected[..n], others);
      assert multiset(coverage) == multiset(others) + multiset{coverage[k]};
    }
  }

  /** For any number of distinctly named workflows, the check passes exactly when the evidence is
      a reordering of the expected entries: none extra, none duplicated, none substituted. */
  lemma CoversExactlyPermutations(expected: seq<CoverageEntry>, coverage: seq<CoverageEntry>)
    requires DistinctNames(expected)
    ensures Covers(expected, coverage) <==> multiset(expected) == multiset(coverage)
  {
    if Covers(expected, coverage) {
      forall i | 0 <= i < |expected| ensures expected[i] in coverage {
        assert Find(coverage, expected[i].workflow)[0] == expected[i];
      }
      ContainmentIsPermutation(expected, coverage);
    }
    if multiset(expected) == multiset(coverage) {
      assert |expected| == |multiset(expected)| == |multiset(coverage)| == |coverage|;
      forall i | 0 <= i < |expected| ensures Find(coverage, expected[i].workflow) == [expected[i]] {
        assert expected[i] in multiset(expected) && expected[i] in coverage;
        var found := Find(coverage, expected[i].workflow);
        assert found[0] in multiset(coverage) && found[0] in expected;
      }
    }
  }

  // ---- Exactly when the check is sound ----

  /** Two expected entries share a name and differ, so no evidence can match both. */
  ghost predicate Conflicting(expected: seq<CoverageEntry>) {
    exists i, j :: 0 <= i < j < |expected| && expected[i].workflow == expected[j].workflow && expected[i] != expected[j]
  }

  lemma CoveredHasNoConflict(expected: seq<CoverageEntry>, coverage: seq<CoverageEntry>)
    requires Covers(expected, coverage)
    ensures !Conflicting(expected)
  {
    forall i, j | 0 <= i < j < |expected| && expected[i].workflow == expected[j].workflow
      ensures expected[i] == expected[j]
    {
      assert [expected[i]] == Find(coverage, expected[i].workflow);
      assert [expected[j]] == Find(coverage, expected[j].workflow);
      assert [expected[i]][0] == [expected[j]][0];
    }
  }

  /** A name that no entry has: it is longer than each of theirs. */
  lemma {:induction false} UnusedName(entries: seq<CoverageEntry>) returns (name: string)
    ensures forall e | e in entries :: |e.workflow| < |name|
  {
    if entries == [] {
      name := "";
    } else {
      var shorter := UnusedName(entries[1..]);
      name := shorter + entries[0].workflow + "+";
      assert forall e | e in entries :: e == entries[0] || e in entries[1..];
    }
  }

  /** With a repeated name and no conflict, an entry nobody expects takes the repeated one's place. */
  lemma RepeatedNameHidesExtra(expected: seq<CoverageEntry>) returns (coverage: seq<CoverageEntry>)
    requires !DistinctNames(expected) && !Conflicting(expected)
    ensures Covers(expected, coverage) && multiset(expected) != multiset(coverage)
  {
    var i, j :| 0 <= i < j < |expected| && expected[i].workflow == expected[j].workflow;
    var name := UnusedName(expected);
    var extra := CoverageEntry(name, "", 0);
    coverage := expected[j := extra];
    forall k | 0 <= k < |expected| ensures Find(coverage, expected[k].workflow) == [expected[k]] {
      FirstMatchIsExpected(expected, coverage, j, if k == j then i else k);
      assert expected[j] == expected[i];
    }
    assert coverage[j] == extra && extra in multiset(coverage);
    assert extra !in expected && extra !in multiset(expected);
  }

  lemma FirstMatchIsExpected(expected: seq<CoverageEntry>, coverage: seq<CoverageEntry>, j: nat, k: nat)
    requires !Conflicting(expected) && j < |expected| && k < |expected| && k != j && |coverage| == |expected|
    requires forall m | 0 <= m < |expected| && m != j :: coverage[m] == expected[m]
    requires coverage[j].workflow != expected[k].workflow
    ensures Find(coverage, expected[k].workflow) == [expected[k]]
  {
    assert coverage[k] in coverage && coverage[k].workflow == expected[k].workflow;
    var found := Find(coverage, expected[k].workflow);
    var m :| 0 <= m < |coverage| && coverage[m] == found[0];
    assert m != j && expected[m].workflow == expected[k].workflow;
    assert expected[m] == expected[k];
  }

  ghost predicate Sound(expected: seq<CoverageEntry>) {
    forall coverage | Covers(expected, coverage) :: multiset(expected) == multiset(coverage)
  }

  /** Whatever passes is a reordering of the expected entries exactly when the expected names are
      distinct, or conflict so that nothing passes at all. */
  lemma SoundExactly(expected: seq<CoverageEntry>)
    ensures Sound(expected) <==> DistinctNames(expected) || Conflicting(expected)
  {
    forall coverage | Covers(expected, coverage) && (DistinctNames(expected) || Conflicting(expected))
      ensures multiset(expected) == multiset(coverage)
    {
      CoveredHasNoConflict(expected, coverage);
      CoversExactlyPermutations(expected, coverage);
    }
    if !DistinctNames(expected) && !Conflicting(expected) {
      var coverage := RepeatedNameHidesExtra(expected);
    }
  }
}
