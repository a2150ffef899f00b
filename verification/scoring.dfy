/** The scoring policy. The evaluator's instructions and the scorecard page
    state it, but no code enforces it: the evaluator's answer is stored as
    it arrives. So the policy is stated here as a reference total and a
    consistency predicate over an analysis result, with what they imply for
    the fixed rubric. */
module Scoring {
  import opened Types
  import opened Grouping
  import opened Catalog

  /** Rule 1 of the instructions: these items are always CONFORME with full
      credit, whatever the call. */
  const AutoConformeIds: seq<string> := ["BONUS", "2.3", "2.4", "4.4", "4.7"]

  /** The points the instructions quote for each auto-conforme item, in the same order. */
  const AutoConformeQuotedPoints: seq<int> := [9, 3, 5, 3, 3]

  predicate IsAuto(id: string)
  {
    id in AutoConformeIds
  }

  /** The first verdict the evaluator reported for `id`: the first-match
      search of `Catalog.Find`, over verdicts rather than rubric entries. */
  function FindScore(scores: seq<CriterionScore>, id: string): (r: Option<CriterionScore>)
    ensures r.None? <==> forall s :: s in scores ==> s.criterionId != id
    ensures r.Some? ==> r.value in scores && r.value.criterionId == id
  {
    if |scores| == 0 then None
    else if scores[0].criterionId == id then Some(scores[0])
    else
      var r := FindScore(scores[1..], id);
      assert forall s :: s in scores[1..] ==> s in scores;
      r
  }

  /** Whether the verdicts mark `id` CONFORME. */
  predicate MarkedConforme(scores: seq<CriterionScore>, id: string)
  {
    var v := FindScore(scores, id);
    v.Some? && v.value.status == Conforme
  }

  /** Points the stated rules award criterion `c`: the full weight for an
      auto-conforme item, otherwise the full weight if it was marked
      CONFORME and nothing if not (binary credit, no partial points). */
  function EarnedPoints(c: Criterion, scores: seq<CriterionScore>): (p: int)
    ensures p == c.weight || p == 0
    ensures IsAuto(c.id) ==> p == c.weight
    ensures !IsAuto(c.id) && c.weight != 0 ==> (p == c.weight <==> MarkedConforme(scores, c.id))
  {
    if IsAuto(c.id) || MarkedConforme(scores, c.id) then c.weight else 0
  }

  function EarnedList(cat: seq<Criterion>, scores: seq<CriterionScore>): (ps: seq<int>)
    ensures |ps| == |cat|
    ensures forall i :: 0 <= i < |cat| ==> ps[i] == EarnedPoints(cat[i], scores)
  {
    seq(|cat|, i requires 0 <= i < |cat| => EarnedPoints(cat[i], scores))
  }

  /** The points a rubric guarantees: the weights of its auto-conforme items. */
  function AutoList(cat: seq<Criterion>): (ps: seq<int>)
    ensures |ps| == |cat|
    ensures forall i :: 0 <= i < |cat| ==> ps[i] == (if IsAuto(cat[i].id) then cat[i].weight else 0)
  {
    seq(|cat|, i requires 0 <= i < |cat| => if IsAuto(cat[i].id) then cat[i].weight else 0)
  }

  /** Reference total over any rubric: zero when a severe failure (NCG) is
      detected, whatever the items earned; otherwise the sum of earned points. */
  function ExpectedTotalOver(cat: seq<Criterion>, scores: seq<CriterionScore>, ncg: bool): int
  {
    if ncg then 0 else Sum(EarnedList(cat, scores))
  }

  /** Reference total over the fixed rubric. */
  function ExpectedTotal(scores: seq<CriterionScore>, ncg: bool): int
  {
    ExpectedTotalOver(DefaultScorecard, scores, ncg)
  }

  /** One reported verdict follows the stated rules against rubric `cat`:
      binary credit (the full maximum when CONFORME, nothing otherwise), the
      maximum equal to the rubric weight when the id is known, and
      auto-conforme items CONFORME. */
  predicate FollowsRulesIn(cat: seq<Criterion>, s: CriterionScore)
  {
    && s.pointsEarned == (if s.status == Conforme then s.maxPoints else 0)
    && (var c := Find(cat, s.criterionId); c.Some? ==> s.maxPoints == c.value.weight)
    && (IsAuto(s.criterionId) ==> s.status == Conforme)
  }

  /** One reported verdict follows the stated rules against the fixed rubric. */
  predicate ScoreFollowsRules(s: CriterionScore)
  {
    FollowsRulesIn(DefaultScorecard, s)
  }

  /** The ids the verdicts name, in order. */
  function ScoreIds(scores: seq<CriterionScore>): (ids: seq<string>)
    ensures |ids| == |scores|
    ensures forall i :: 0 <= i < |scores| ==> ids[i] == scores[i].criterionId
  {
    seq(|scores|, i requires 0 <= i < |scores| => scores[i].criterionId)
  }

  /** The instructions ask for a verdict on each item listed: the verdicts
      name every rubric id exactly once, in any order. */
  predicate OneVerdictPerItem(cat: seq<Criterion>, scores: seq<CriterionScore>)
  {
    multiset(ScoreIds(scores)) == multiset(Ids(cat))
  }

  function PointsList(scores: seq<CriterionScore>): (ps: seq<int>)
    ensures |ps| == |scores|
    ensures forall i :: 0 <= i < |scores| ==> ps[i] == scores[i].pointsEarned
  {
    seq(|scores|, i requires 0 <= i < |scores| => scores[i].pointsEarned)
  }

  /** A result the stated policy would accept: one verdict per rubric item,
      every verdict following the rules, the total the reference total, and,
      as the response schema describes it, the sum of the points earned
      unless NCG is detected. */
  predicate PolicyConsistent(r: AnalysisResult)
  {
    && (forall i :: 0 <= i < |r.criteriaScores| ==> ScoreFollowsRules(r.criteriaScores[i]))
    && OneVerdictPerItem(DefaultScorecard, r.criteriaScores)
    && r.totalScore == ExpectedTotal(r.criteriaScores, r.isNcgDetected)
    && (!r.isNcgDetected ==> r.totalScore == Sum(PointsList(r.criteriaScores)))
  }

  // ---------------------------------------------------------------------
  // Over any rubric with non-negative weights

  /** Without NCG the reference total lies between the guaranteed points and
      the rubric's full weight; with NCG it is zero. */
  lemma ExpectedTotalOverBounds(cat: seq<Criterion>, scores: seq<CriterionScore>, ncg: bool)
    requires forall c :: c in cat ==> c.weight >= 0
    ensures ncg ==> ExpectedTotalOver(cat, scores, ncg) == 0
    ensures !ncg ==> Sum(AutoList(cat)) <= ExpectedTotalOver(cat, scores, ncg) <= SumWeights(cat)
  {
    assert forall i :: 0 <= i < |cat| ==> cat[i] in cat;
    SumMonotone(AutoList(cat), EarnedList(cat, scores));
    SumMonotone(EarnedList(cat, scores), Weights(cat));
  }

  /** When every item is marked CONFORME and there is no NCG, the reference
      total is the rubric's full weight. */
  lemma AllConformeEarnsAll(cat: seq<Criterion>, scores: seq<CriterionScore>)
    requires forall c :: c in cat ==> MarkedConforme(scores, c.id)
    ensures ExpectedTotalOver(cat, scores, false) == SumWeights(cat)
  {
    assert forall i :: 0 <= i < |cat| ==> cat[i] in cat;
    assert EarnedList(cat, scores) == Weights(cat);
  }

  // ---------------------------------------------------------------------
  // Over the fixed rubric

  /** Each auto-conforme id names a rubric item whose weight is the number of
      points the instructions quote for it; together they guarantee 23 points. */
  lemma AutoListMatchesCatalog()
    ensures |AutoConformeIds| == |AutoConformeQuotedPoints|
    ensures forall i :: 0 <= i < |AutoConformeIds| ==>
      var c := Find(DefaultScorecard, AutoConformeIds[i]);
      c.Some? && c.value.weight == AutoConformeQuotedPoints[i]
    ensures Sum(AutoConformeQuotedPoints) == 23
  {
    assert Sum(AutoConformeQuotedPoints) == Sum([9, 3, 5, 3, 3]);
    assert Sum([9, 3, 5, 3, 3]) == 23;
    forall i | 0 <= i < |AutoConformeIds|
      ensures var c := Find(DefaultScorecard, AutoConformeIds[i]);
        c.Some? && c.value.weight == AutoConformeQuotedPoints[i]
    {
      AutoEntry(i);
    }
  }

  lemma AutoEntry(i: nat)
    requires i < |AutoConformeIds|
    ensures var c := Find(DefaultScorecard, AutoConformeIds[i]);
      c.Some? && c.value.weight == AutoConformeQuotedPoints[i]
  {
    CatalogSize();
    var j := [26, 7, 8, 12, 15][i];
    assert DefaultScorecard[j].id == AutoConformeIds[i];
    assert DefaultScorecard[j].weight == AutoConformeQuotedPoints[i];
    FindById(j);
  }

  // The guaranteed points of each section, one lemma per section to keep
  // each literal computation small; GuaranteedPoints adds them up.
  lemma AutoSumAbertura()
    ensures Sum(AutoList(Abertura)) == 0
  {
    assert AutoList(Abertura) == [0, 0, 0, 0, 0];
    assert Sum([0, 0, 0, 0, 0]) == 0;
  }

  lemma AutoSumCadastro()
    ensures Sum(AutoList(Cadastro)) == 8
  {
    assert AutoList(Cadastro) == [0, 0, 3, 5];
    assert Sum([0, 0, 3, 5]) == 8;
  }

  lemma AutoSumDialogo()
    ensures Sum(AutoList(Dialogo)) == 6
  {
    assert AutoList(Dialogo) == [0, 0, 0, 3, 0, 0, 3, 0];
    assert Sum([0, 0, 0, 3, 0, 0, 3, 0]) == 6;
  }

  lemma AutoSumConhecimento()
    ensures Sum(AutoList(Conhecimento)) == 0
  {
    assert AutoList(Conhecimento) == [0, 0, 0, 0, 0];
    assert Sum([0, 0, 0, 0, 0]) == 0;
  }

  lemma AutoSumFinalizacao()
    ensures Sum(AutoList(Finalizacao)) == 0
  {
    assert AutoList(Finalizacao) == [0, 0, 0, 0];
    assert Sum([0, 0, 0, 0]) == 0;
  }

  lemma AutoSumSistema()
    ensures Sum(AutoList(Sistema)) == 9
  {
    assert AutoList(Sistema) == [9];
    assert Sum([9]) == 9;
  }

  lemma AutoListAppend(a: seq<Criterion>, b: seq<Criterion>)
    ensures Sum(AutoList(a + b)) == Sum(AutoList(a)) + Sum(AutoList(b))
  {
    assert AutoList(a + b) == AutoList(a) + AutoList(b);
    SumAppend(AutoList(a), AutoList(b));
  }

  /** The auto-conforme items of the rubric are worth 23 points. */
  lemma GuaranteedPoints()
    ensures Sum(AutoList(DefaultScorecard)) == 23
  {
    AutoSumAbertura();
    AutoSumCadastro();
    AutoSumDialogo();
    AutoSumConhecimento();
    AutoSumFinalizacao();
    AutoSumSistema();
    AutoListAppend(Abertura, Cadastro);
    AutoListAppend(Abertura + Cadastro, Dialogo);
    AutoListAppend(Abertura + Cadastro + Dialogo, Conhecimento);
    AutoListAppend(Abertura + Cadastro + Dialogo + Conhecimento, Finalizacao);
    AutoListAppend(Abertura + Cadastro + Dialogo + Conhecimento + Finalizacao, Sistema);
  }

  /** Under the stated rules a monitoring scores 0 with NCG and otherwise
      between 23 and 100 points; 100 when every item is marked CONFORME. */
  lemma ExpectedTotalBounds(scores: seq<CriterionScore>, ncg: bool)
    ensures ncg ==> ExpectedTotal(scores, ncg) == 0
    ensures !ncg ==> 23 <= ExpectedTotal(scores, ncg) <= 100
    ensures !ncg && (forall c :: c in DefaultScorecard ==> MarkedConforme(scores, c.id)) ==>
      ExpectedTotal(scores, ncg) == 100
  {
    WeightsPositive();
    GuaranteedPoints();
    TotalIsHundred();
    ExpectedTotalOverBounds(DefaultScorecard, scores, ncg);
    if !ncg && forall c :: c in DefaultScorecard ==> MarkedConforme(scores, c.id) {
      AllConformeEarnsAll(DefaultScorecard, scores);
    }
  }

  /** A result that follows the policy has total 0 when NCG is detected and
      otherwise a total between 23 and 100. */
  lemma PolicyConsistentTotals(r: AnalysisResult)
    requires PolicyConsistent(r)
    ensures r.isNcgDetected ==> r.totalScore == 0
    ensures !r.isNcgDetected ==> 23 <= r.totalScore <= 100
  {
    ExpectedTotalBounds(r.criteriaScores, r.isNcgDetected);
  }

  /** The NCG rule is not negotiable: a result reporting NCG with any
      non-zero total (say 57) does not follow the policy. */
  lemma NcgWithPointsIsInconsistent(r: AnalysisResult)
    requires r.isNcgDetected && r.totalScore != 0
    ensures !PolicyConsistent(r)
  {
  }

  /** A result whose verdicts do not number 27 misses an item or repeats
      one, so it does not follow the policy, whatever its total. */
  lemma MissingVerdictsInconsistent(r: AnalysisResult)
    requires |r.criteriaScores| != 27
    ensures !PolicyConsistent(r)
  {
    CatalogSize();
    assert |multiset(ScoreIds(r.criteriaScores))| == |r.criteriaScores|;
    assert |multiset(Ids(DefaultScorecard))| == 27;
  }

  // ---------------------------------------------------------------------
  // The schema's sum and the instructions' total agree

  lemma FindScoreAt(scores: seq<CriterionScore>, i: nat)
    requires i < |scores|
    requires forall j :: 0 <= j < i ==> scores[j].criterionId != scores[i].criterionId
    ensures FindScore(scores, scores[i].criterionId) == Some(scores[i])
    decreases i
  {
    if i > 0 {
      FindScoreAt(scores[1..], i - 1);
    }
  }

  /** What the rules award the item with id `id`, nothing for an unknown id. */
  function ItemPoints(cat: seq<Criterion>, scores: seq<CriterionScore>, id: string): int
  {
    var c := Find(cat, id);
    if c.Some? then EarnedPoints(c.value, scores) else 0
  }

  /** The points the rules award the items named by `ids`, added up. */
  function SumItems(cat: seq<Criterion>, scores: seq<CriterionScore>, ids: seq<string>): int
  {
    if |ids| == 0 then 0 else ItemPoints(cat, scores, ids[0]) + SumItems(cat, scores, ids[1..])
  }

  lemma {:induction false} SumItemsPointwise(cat: seq<Criterion>, scores: seq<CriterionScore>, ids: seq<string>, ps: seq<int>)
    requires |ps| == |ids|
    requires forall i :: 0 <= i < |ids| ==> ps[i] == ItemPoints(cat, scores, ids[i])
    ensures Sum(ps) == SumItems(cat, scores, ids)
    decreases |ids|
  {
    if |ids| > 0 {
      SumItemsPointwise(cat, scores, ids[1..], ps[1..]);
    }
  }

  lemma {:induction false} SumItemsAppend(cat: seq<Criterion>, scores: seq<CriterionScore>, a: seq<string>, b: seq<string>)
    ensures SumItems(cat, scores, a + b) == SumItems(cat, scores, a) + SumItems(cat, scores, b)
    decreases |a|
  {
    if |a| == 0 {
      assert a + b == b;
    } else {
      assert (a + b)[1..] == a[1..] + b;
      SumItemsAppend(cat, scores, a[1..], b);
    }
  }

  /** The items' points add up to the same total in any order. */
  lemma {:induction false} SumItemsPermutation(cat: seq<Criterion>, scores: seq<CriterionScore>, xs: seq<string>, ys: seq<string>)
    requires multiset(xs) == multiset(ys)
    ensures SumItems(cat, scores, xs) == SumItems(cat, scores, ys)
    decreases |xs|
  {
    assert |xs| == |multiset(xs)| == |multiset(ys)| == |ys|;
    if |xs| > 0 {
      var x := xs[0];
      assert x in multiset(ys);
      var k :| 0 <= k < |ys| && ys[k] == x;
      var rest := ys[..k] + ys[k + 1..];
      assert ys == ys[..k] + ([x] + ys[k + 1..]);
      assert xs == [x] + xs[1..];
      assert multiset(ys) == multiset(ys[..k]) + multiset{x} + multiset(ys[k + 1..]);
      assert multiset(rest) == multiset(ys[..k]) + multiset(ys[k + 1..]);
      assert multiset(xs) == multiset{x} + multiset(xs[1..]);
      assert multiset(rest) == multiset(ys) - multiset{x};
      assert multiset(xs[1..]) == multiset(xs) - multiset{x};
      SumItemsPermutation(cat, scores, xs[1..], rest);
      SumItemsAppend(cat, scores, ys[..k], [x] + ys[k + 1..]);
      SumItemsAppend(cat, scores, ys[..k], ys[k + 1..]);
      assert ([x] + ys[k + 1..])[1..] == ys[k + 1..];
    }
  }

  /** Each value occurs at most once in a list without repeats. */
  lemma {:induction false} DistinctOnce(ys: seq<string>, x: string)
    requires Distinct(ys)
    ensures multiset(ys)[x] <= 1
    decreases |ys|
  {
    if |ys| > 0 {
      assert ys == [ys[0]] + ys[1..];
      assert Distinct(ys[1..]) by {
        forall i, j | 0 <= i < j < |ys[1..]| ensures ys[1..][i] != ys[1..][j] {
          assert ys[i + 1] != ys[j + 1];
        }
      }
      DistinctOnce(ys[1..], x);
      if ys[0] == x {
        assert x !in ys[1..] by {
          forall j | 0 <= j < |ys[1..]| ensures ys[1..][j] != x {
            assert ys[0] != ys[j + 1];
          }
        }
      }
    }
  }

  /** A rearrangement of a list without repeats has no repeats. */
  lemma DistinctPermutation(xs: seq<string>, ys: seq<string>)
    requires multiset(xs) == multiset(ys) && Distinct(ys)
    ensures Distinct(xs)
  {
    forall i, j | 0 <= i < j < |xs|
      ensures xs[i] != xs[j]
    {
      if xs[i] == xs[j] {
        var x := xs[i];
        assert xs == xs[..j] + xs[j..];
        assert x in xs[..j];
        assert x in xs[j..];
        assert multiset(xs)[x] == multiset(xs[..j])[x] + multiset(xs[j..])[x];
        DistinctOnce(ys, x);
        assert false;
      }
    }
  }

  /** For verdicts that name each item of a rubric with distinct ids once, in
      any order, and follow the rules, the sum of the points earned is the
      reference total: the schema's description and the instructions agree. */
  lemma SchemaSumOver(cat: seq<Criterion>, scores: seq<CriterionScore>)
    requires Distinct(Ids(cat))
    requires OneVerdictPerItem(cat, scores)
    requires forall i :: 0 <= i < |scores| ==> FollowsRulesIn(cat, scores[i])
    ensures Sum(PointsList(scores)) == ExpectedTotalOver(cat, scores, false)
  {
    var ids := ScoreIds(scores);
    forall i | 0 <= i < |cat|
      ensures EarnedList(cat, scores)[i] == ItemPoints(cat, scores, Ids(cat)[i])
    {
      FindUnique(cat, i);
    }
    SumItemsPointwise(cat, scores, Ids(cat), EarnedList(cat, scores));
    DistinctPermutation(ids, Ids(cat));
    forall j | 0 <= j < |scores|
      ensures PointsList(scores)[j] == ItemPoints(cat, scores, ids[j])
    {
      VerdictPoints(cat, scores, j);
    }
    SumItemsPointwise(cat, scores, ids, PointsList(scores));
    SumItemsPermutation(cat, scores, ids, Ids(cat));
  }

  /** A verdict on a rubric item, the only one for its id, earns what the
      rules award the item. */
  lemma VerdictPoints(cat: seq<Criterion>, scores: seq<CriterionScore>, j: nat)
    requires j < |scores|
    requires OneVerdictPerItem(cat, scores)
    requires Distinct(ScoreIds(scores))
    requires FollowsRulesIn(cat, scores[j])
    ensures scores[j].pointsEarned == ItemPoints(cat, scores, scores[j].criterionId)
  {
    var ids := ScoreIds(scores);
    var id := scores[j].criterionId;
    forall k | 0 <= k < j
      ensures scores[k].criterionId != id
    {
      assert ids[k] != ids[j];
    }
    FindScoreAt(scores, j);
    assert id in multiset(ids);
    assert id in multiset(Ids(cat));
    var k :| 0 <= k < |cat| && Ids(cat)[k] == id;
    assert Find(cat, id).Some?;
  }

  /** The total the response schema describes, the sum of the points earned,
      is the reference total for every result that gives one verdict per
      rubric item, in any order, each following the rules. */
  lemma SchemaSumIsExpectedTotal(scores: seq<CriterionScore>)
    requires OneVerdictPerItem(DefaultScorecard, scores)
    requires forall i :: 0 <= i < |scores| ==> ScoreFollowsRules(scores[i])
    ensures Sum(PointsList(scores)) == ExpectedTotal(scores, false)
  {
    IdsDistinct();
    SchemaSumOver(DefaultScorecard, scores);
  }
}
