/** Turning the coverage result, the rules result, the row counts and the
    questionnaire into four sub-scores, a weighted overall score, a readiness label
    and a list of gaps. All scores are integers from 0 to 100. */
module Scorer {
  import opened JsValues
  import opened Seqs
  import opened Schema
  import opened FieldDetector
  import RulesValidator

  datatype ScoreBreakdown = ScoreBreakdown(data: int, coverage: int, rules: int, posture: int, overall: int)

  /** The questionnaire is a JSON object; its three answers are looked up by name. */
  datatype ScoringInput = ScoringInput(
    parsedRowsCount: nat,
    totalRowsAttempted: nat,
    coverage: CoverageResult,
    rulesResult: RulesValidator.RulesResult,
    questionnaire: map<string, Scalar>)

  /** `part / whole * 100` lies in [0, 100] when 0 <= part <= whole. */
  lemma PercentBounds(part: real, whole: real)
    requires 0.0 <= part <= whole && whole > 0.0
    ensures 0.0 <= part / whole * 100.0 <= 100.0
  {
    assert part / whole <= 1.0 by {
      assert part / whole * whole == part;
    }
  }

  // ---------------------------------------------------------------------------
  // Data score

  lemma DivSelf(x: real)
    requires x > 0.0
    ensures x / x == 1.0
  {
  }

  /** A share of at most all rows, as a rounded percentage, lies in [0, 100], and
      all rows give 100. */
  lemma RateBounds(parsedRows: nat, totalRows: nat)
    requires totalRows > 0
    ensures parsedRows <= totalRows ==> 0 <= Round(parsedRows as real / totalRows as real * 100.0) <= 100
    ensures parsedRows == totalRows ==> Round(parsedRows as real / totalRows as real * 100.0) == 100
  {
    var p := parsedRows as real;
    var t := totalRows as real;
    if parsedRows <= totalRows {
      PercentBounds(p, t);
      RoundBounded(p / t * 100.0);
    }
    if parsedRows == totalRows {
      DivSelf(t);
      RoundOfInt(100);
    }
  }

  /** The share of rows parsed, as a rounded percentage; 0 when nothing was attempted. */
  function DataScore(parsedRows: nat, totalRows: nat): (r: int)
    ensures totalRows == 0 ==> r == 0
    ensures parsedRows <= totalRows ==> 0 <= r <= 100
    ensures 0 < totalRows && parsedRows == totalRows ==> r == 100
  {
    if totalRows == 0 then 0
    else
      RateBounds(parsedRows, totalRows);
      var parseSuccessRate := parsedRows as real / totalRows as real;
      Round(parseSuccessRate * 100.0)
  }

  /** Parsing more of the same rows never lowers the data score. */
  lemma DataScoreMonotone(parsed1: nat, parsed2: nat, totalRows: nat)
    requires parsed1 <= parsed2
    ensures DataScore(parsed1, totalRows) <= DataScore(parsed2, totalRows)
  {
    if totalRows > 0 {
      var t := totalRows as real;
      assert parsed1 as real / t <= parsed2 as real / t by {
        assert parsed1 as real / t * t == parsed1 as real;
        assert parsed2 as real / t * t == parsed2 as real;
      }
      RoundMonotone(parsed1 as real / t * 100.0, parsed2 as real / t * 100.0);
    }
  }

  // ---------------------------------------------------------------------------
  // Coverage score

  /** `getsSchema.fields[path].category === name`. A path outside the schema has no
      category here; the source would throw instead, which the preconditions below
      rule out. */
  predicate InCategory(fields: seq<FieldSpec>, path: string, name: string)
  {
    Lookup(fields, path).Some? && Lookup(fields, path).value.category == name
  }

  /** How many of `paths` belong to the category (duplicates counted). */
  function CountInCategory(fields: seq<FieldSpec>, paths: seq<string>, name: string): (n: nat)
    ensures n <= |paths|
    decreases |paths|
  {
    if paths == [] then 0
    else
      CountInCategory(fields, paths[..|paths| - 1], name) +
      (if InCategory(fields, paths[|paths| - 1], name) then 1 else 0)
  }

  /** The confidences of the close matches in the category, each weighted by 0.7. */
  function CloseScore(fields: seq<FieldSpec>, close: seq<FieldMatch>, name: string): (r: real)
    ensures (forall i :: 0 <= i < |close| ==> close[i].confidence >= 0.0) ==> r >= 0.0
    decreases |close|
  {
    if close == [] then 0.0
    else
      var m := close[|close| - 1];
      CloseScore(fields, close[..|close| - 1], name) +
      (if InCategory(fields, m.target, name) then m.confidence * 0.7 else 0.0)
  }

  /** A weighted score and a total weight. */
  datatype Sums = Sums(weighted: real, total: real)

  /** What one category adds to the sums, given its number of schema fields `n`, of
      matched fields `m`, its close-match score `cs` and its weight: nothing at all
      when it has no schema field, otherwise its score (m + cs) / n times its
      weight, and its weight. */
  function ShareOf(n: nat, m: nat, cs: real, weight: real): Sums
  {
    if n == 0 then Sums(0.0, 0.0)
    else Sums(Weigh(CategoryScore(n, m, cs), weight), weight)
  }

  lemma ShareOfNonEmpty(n: nat, m: nat, cs: real, weight: real)
    requires n > 0
    ensures ShareOf(n, m, cs, weight) == Sums(Weigh(CategoryScore(n, m, cs), weight), weight)
  {
  }

  /** A category score times the category's weight. */
  function Weigh(score: real, weight: real): real
  {
    score * weight
  }

  /** A category's score: matched fields plus the close-match score, per schema field. */
  function CategoryScore(n: nat, m: nat, cs: real): real
    requires n > 0
  {
    (m as real + cs) / n as real
  }

  function Share(fields: seq<FieldSpec>, coverage: CoverageResult, c: Category): Sums
  {
    ShareOf(CountInCategory(fields, Paths(fields), c.name), CountInCategory(fields, coverage.matched, c.name),
            CloseScore(fields, coverage.close, c.name), c.weight)
  }

  function Shares(fields: seq<FieldSpec>, coverage: CoverageResult, cats: seq<Category>): (r: seq<Sums>)
    ensures |r| == |cats|
    ensures forall k :: 0 <= k < |cats| ==> r[k] == Share(fields, coverage, cats[k])
  {
    seq(|cats|, k requires 0 <= k < |cats| => Share(fields, coverage, cats[k]))
  }

  function Total(ss: seq<Sums>): Sums
    decreases |ss|
  {
    if ss == [] then Sums(0.0, 0.0)
    else
      var acc := Total(ss[..|ss| - 1]);
      Sums(acc.weighted + ss[|ss| - 1].weighted, acc.total + ss[|ss| - 1].total)
  }

  /** The weighted score and the total weight over the categories `cats`. */
  function Weighted(fields: seq<FieldSpec>, coverage: CoverageResult, cats: seq<Category>): Sums
  {
    Total(Shares(fields, coverage, cats))
  }

  /** The loop step over the categories: each adds its share to the sums. */
  lemma WeightedStep(fields: seq<FieldSpec>, coverage: CoverageResult, cats: seq<Category>, k: nat)
    requires k < |cats|
    ensures Weighted(fields, coverage, cats[..k + 1]) ==
            Sums(Weighted(fields, coverage, cats[..k]).weighted + Share(fields, coverage, cats[k]).weighted,
                 Weighted(fields, coverage, cats[..k]).total + Share(fields, coverage, cats[k]).total)
  {
    var ss := Shares(fields, coverage, cats[..k + 1]);
    assert ss[..k] == Shares(fields, coverage, cats[..k]);
  }

  /** Every matched path and close target is a schema path; any coverage result the
      detector computes for this schema is one. */
  predicate TargetsInSchema(schema: Gets, coverage: CoverageResult)
  {
    (forall i :: 0 <= i < |coverage.matched| ==> coverage.matched[i] in Paths(schema.fields)) &&
    (forall i :: 0 <= i < |coverage.close| ==> coverage.close[i].target in Paths(schema.fields))
  }

  /** The weighted mean of the category scores as a percentage, clamped to [0, 100]
      and rounded; 0 when no category carries weight. */
  function CoverageScore(schema: Gets, coverage: CoverageResult): (r: int)
    requires TargetsInSchema(schema, coverage)
    ensures 0 <= r <= 100
  {
    var w := Weighted(schema.fields, coverage, schema.categories);
    var finalScore := if w.total > 0.0 then w.weighted / w.total * 100.0 else 0.0;
    RoundBounded(Clamp100(finalScore));
    Round(Clamp100(finalScore))
  }

  method CalculateCoverageScore(schema: Gets, coverage: CoverageResult) returns (score: int)
    requires TargetsInSchema(schema, coverage)
    ensures score == CoverageScore(schema, coverage)
  {
    var getsFields := Paths(schema.fields);
    var categories := schema.categories;
    var weightedScore := 0.0;
    var totalWeight := 0.0;

    for k := 0 to |categories|
      invariant Sums(weightedScore, totalWeight) == Weighted(schema.fields, coverage, categories[..k])
    {
      WeightedStep(schema.fields, coverage, categories, k);
      var category := categories[k];
      var categoryFields := CountInCategory(schema.fields, getsFields, category.name);
      if categoryFields == 0 {
        assert Share(schema.fields, coverage, category) == Sums(0.0, 0.0);
        continue;
      }
      var matchedInCategory := CountInCategory(schema.fields, coverage.matched, category.name);
      var closeScore := CloseScore(schema.fields, coverage.close, category.name);
      var categoryScore := CategoryScore(categoryFields, matchedInCategory, closeScore);
      var categoryWeight := category.weight;
      ShareOfNonEmpty(categoryFields, matchedInCategory, closeScore, categoryWeight);
      weightedScore := weightedScore + Weigh(categoryScore, categoryWeight);
      totalWeight := totalWeight + categoryWeight;
    }

    assert categories[..|categories|] == categories;
    var finalScore := if totalWeight > 0.0 then weightedScore / totalWeight * 100.0 else 0.0;
    score := Round(Clamp100(finalScore));
  }

  /** A coverage result the detector computes for a schema meets the precondition
      of the coverage score. */
  lemma DetectedCoverageInSchema(rt: JsRuntime, schema: Gets, records: seq<Row>)
    requires Distinct(Paths(schema.fields))
    ensures TargetsInSchema(schema, Coverage(rt, schema, records))
  {
    var cov := Coverage(rt, schema, records);
    CoveragePartition(rt, schema, records);
    forall i | 0 <= i < |cov.close|
      ensures cov.close[i].target in Paths(schema.fields)
    {
      assert CloseTargets(cov.close)[i] == cov.close[i].target;
    }
  }

  /** The categories that have at least one schema field, in their order. */
  function WithFields(fields: seq<FieldSpec>, cats: seq<Category>): (r: seq<Category>)
    ensures |r| <= |cats|
    ensures forall c :: c in r <==> c in cats && CountInCategory(fields, Paths(fields), c.name) > 0
    decreases |cats|
  {
    if cats == [] then []
    else
      var last := cats[|cats| - 1];
      if CountInCategory(fields, Paths(fields), last.name) > 0 then WithFields(fields, cats[..|cats| - 1]) + [last]
      else WithFields(fields, cats[..|cats| - 1])
  }

  lemma WeightedSnoc(fields: seq<FieldSpec>, coverage: CoverageResult, cats: seq<Category>, c: Category)
    ensures Weighted(fields, coverage, cats + [c]) ==
            Sums(Weighted(fields, coverage, cats).weighted + Share(fields, coverage, c).weighted,
                 Weighted(fields, coverage, cats).total + Share(fields, coverage, c).total)
  {
    WeightedStep(fields, coverage, cats + [c], |cats|);
    assert (cats + [c])[..|cats|] == cats;
    assert (cats + [c])[..|cats| + 1] == cats + [c];
  }

  /** A category without schema fields adds to neither sum: leaving all such
      categories out gives the same weighted score and total weight. */
  lemma {:induction false} EmptyCategoriesIgnored(fields: seq<FieldSpec>, coverage: CoverageResult, cats: seq<Category>)
    ensures Weighted(fields, coverage, WithFields(fields, cats)) == Weighted(fields, coverage, cats)
    decreases |cats|
  {
    if cats != [] {
      var init := cats[..|cats| - 1];
      var last := cats[|cats| - 1];
      assert cats == init + [last];
      EmptyCategoriesIgnored(fields, coverage, init);
      WeightedSnoc(fields, coverage, init, last);
      if CountInCategory(fields, Paths(fields), last.name) > 0 {
        WeightedSnoc(fields, coverage, WithFields(fields, init), last);
      }
    }
  }

  /** Sums whose every share has a non-negative total add up to a total no smaller
      than any one share's; when every share's weighted part is at least its total,
      so is the sum's. */
  lemma {:induction false} TotalBounds(ss: seq<Sums>)
    requires forall k :: 0 <= k < |ss| ==> ss[k].total >= 0.0
    ensures Total(ss).total >= 0.0
    ensures forall k :: 0 <= k < |ss| ==> Total(ss).total >= ss[k].total
    ensures (forall k :: 0 <= k < |ss| ==> ss[k].weighted >= ss[k].total) ==> Total(ss).weighted >= Total(ss).total
    decreases |ss|
  {
    if ss != [] {
      TotalBounds(ss[..|ss| - 1]);
    }
  }

  /** The total weight is the sum of the weights of the categories with schema
      fields; with positive weights it is zero exactly when no category has any. */
  lemma TotalWeightZeroIff(schema: Gets, coverage: CoverageResult)
    requires forall k :: 0 <= k < |schema.categories| ==> schema.categories[k].weight > 0.0
    ensures Weighted(schema.fields, coverage, schema.categories).total == 0.0 <==>
            forall k :: 0 <= k < |schema.categories| ==>
              CountInCategory(schema.fields, Paths(schema.fields), schema.categories[k].name) == 0
  {
    var ss := Shares(schema.fields, coverage, schema.categories);
    TotalBounds(ss);
    if forall k :: 0 <= k < |schema.categories| ==>
         CountInCategory(schema.fields, Paths(schema.fields), schema.categories[k].name) == 0 {
      TotalZero(ss);
    }
  }

  lemma {:induction false} TotalZero(ss: seq<Sums>)
    requires forall k :: 0 <= k < |ss| ==> ss[k] == Sums(0.0, 0.0)
    ensures Total(ss) == Sums(0.0, 0.0)
    decreases |ss|
  {
    if ss != [] {
      TotalZero(ss[..|ss| - 1]);
    }
  }

  /** With no category carrying schema fields the coverage score is 0. */
  lemma NoWeightScoresZero(schema: Gets, coverage: CoverageResult)
    requires TargetsInSchema(schema, coverage)
    requires forall k :: 0 <= k < |schema.categories| ==>
               CountInCategory(schema.fields, Paths(schema.fields), schema.categories[k].name) == 0
    ensures CoverageScore(schema, coverage) == 0
  {
    TotalZero(Shares(schema.fields, coverage, schema.categories));
    RoundOfInt(0);
  }

  /** Over paths without repetition, the count is the number of distinct paths of
      the category. */
  lemma {:induction false} CountIsCard(fields: seq<FieldSpec>, paths: seq<string>, name: string)
    requires Distinct(paths)
    ensures CountInCategory(fields, paths, name) == |set p | p in paths && InCategory(fields, p, name)|
    decreases |paths|
  {
    if paths != [] {
      var init := paths[..|paths| - 1];
      var last := paths[|paths| - 1];
      DistinctInit(paths);
      CountIsCard(fields, init, name);
      assert forall p :: p in paths <==> p in init || p == last by {
        assert paths == init + [last];
      }
      var before := set p | p in init && InCategory(fields, p, name);
      var after := set p | p in paths && InCategory(fields, p, name);
      if InCategory(fields, last, name) {
        assert |after| == |before| + 1 by {
          assert last !in before;
          assert after == before + {last};
        }
      } else {
        assert after == before;
      }
    }
  }

  /** A path of the category in the list makes the count positive. */
  lemma {:induction false} CountPositive(fields: seq<FieldSpec>, paths: seq<string>, name: string, i: nat)
    requires i < |paths| && InCategory(fields, paths[i], name)
    ensures CountInCategory(fields, paths, name) > 0
    decreases |paths|
  {
    if i < |paths| - 1 {
      assert paths[..|paths| - 1][i] == paths[i];
      CountPositive(fields, paths[..|paths| - 1], name, i);
    }
  }

  /** A category all of whose fields are matched scores at least 1. */
  lemma FullCategoryScore(n: nat, m: nat, cs: real, weight: real)
    requires 0 < n <= m && cs >= 0.0 && weight >= 0.0
    ensures Weigh(CategoryScore(n, m, cs), weight) >= weight
  {
    var score := CategoryScore(n, m, cs);
    assert score >= 1.0 by {
      assert score * n as real == m as real + cs;
    }
    assert score * weight >= weight by {
      assert (score - 1.0) * weight >= 0.0;
    }
  }

  lemma RatioAtLeastOne(a: real, b: real)
    requires a >= b > 0.0
    ensures a / b * 100.0 >= 100.0
  {
    assert a / b * b == a;
  }

  /** Two lists without duplicates and with the same members have as many paths in
      any category. */
  lemma SameMembersSameCount(fields: seq<FieldSpec>, xs: seq<string>, ys: seq<string>, name: string)
    requires Distinct(xs) && Distinct(ys)
    requires forall p :: p in xs <==> p in ys
    ensures CountInCategory(fields, xs, name) == CountInCategory(fields, ys, name)
  {
    CountIsCard(fields, xs, name);
    CountIsCard(fields, ys, name);
    assert (set p | p in xs && InCategory(fields, p, name)) == (set p | p in ys && InCategory(fields, p, name));
  }

  /** With every schema field matched once, a category's weighted score is at least
      its weight. */
  lemma AllMatchedShare(schema: Gets, coverage: CoverageResult, c: Category)
    requires Distinct(Paths(schema.fields)) && Distinct(coverage.matched)
    requires forall p :: p in coverage.matched <==> p in Paths(schema.fields)
    requires forall i :: 0 <= i < |coverage.close| ==> coverage.close[i].confidence >= 0.0
    requires c.weight > 0.0
    ensures Share(schema.fields, coverage, c).total >= 0.0
    ensures Share(schema.fields, coverage, c).weighted >= Share(schema.fields, coverage, c).total
  {
    var fields := schema.fields;
    var n := CountInCategory(fields, Paths(fields), c.name);
    var m := CountInCategory(fields, coverage.matched, c.name);
    SameMembersSameCount(fields, Paths(fields), coverage.matched, c.name);
    if n > 0 {
      FullCategoryScore(n, m, CloseScore(fields, coverage.close, c.name), c.weight);
    }
  }

  /** If every schema field is matched, once each, the coverage score is 100 (close
      matches, with their non-negative confidences, can only add to it). */
  lemma AllMatchedScoresFull(schema: Gets, coverage: CoverageResult)
    requires WellFormed(schema) && schema.fields != []
    requires Distinct(coverage.matched)
    requires forall p :: p in coverage.matched <==> p in Paths(schema.fields)
    requires forall i :: 0 <= i < |coverage.close| ==>
               coverage.close[i].target in Paths(schema.fields) && coverage.close[i].confidence >= 0.0
    ensures TargetsInSchema(schema, coverage)
    ensures CoverageScore(schema, coverage) == 100
  {
    var fields := schema.fields;
    var cats := schema.categories;
    var ss := Shares(fields, coverage, cats);
    forall k | 0 <= k < |ss|
      ensures ss[k].total >= 0.0 && ss[k].weighted >= ss[k].total
    {
      AllMatchedShare(schema, coverage, cats[k]);
    }
    assert fields[0].category in CategoryNames(cats);
    var k :| 0 <= k < |cats| && CategoryNames(cats)[k] == fields[0].category;
    LookupOwnPath(fields, 0);
    CountPositive(fields, Paths(fields), cats[k].name, 0);
    TotalBounds(ss);
    var w := Total(ss);
    RatioAtLeastOne(w.weighted, w.total);
    RoundOfInt(100);
  }

  // ---------------------------------------------------------------------------
  // Posture score

  const Questions: seq<string> := ["webhooks", "sandbox_env", "retries"]

  /** `questionnaire[question] === true`: only the boolean true counts, not a truthy
      string or number. */
  predicate Yes(questionnaire: map<string, Scalar>, question: string)
  {
    question in questionnaire && questionnaire[question] == Bool(true)
  }

  /** How many of `questions` are answered with true. */
  function PositiveAnswers(questionnaire: map<string, Scalar>, questions: seq<string>): (n: nat)
    ensures n <= |questions|
    ensures n == |questions| <==> forall i :: 0 <= i < |questions| ==> Yes(questionnaire, questions[i])
    ensures n == 0 <==> forall i :: 0 <= i < |questions| ==> !Yes(questionnaire, questions[i])
    decreases |questions|
  {
    if questions == [] then 0
    else
      var q := questions[|questions| - 1];
      PositiveAnswers(questionnaire, questions[..|questions| - 1]) + (if Yes(questionnaire, q) then 1 else 0)
  }

  /** The share of positive answers as a rounded percentage: one of 0, 33, 67, 100. */
  function PostureScore(questionnaire: map<string, Scalar>): (r: int)
    ensures r == [0, 33, 67, 100][PositiveAnswers(questionnaire, Questions)]
    ensures r == 100 <==> forall i :: 0 <= i < |Questions| ==> Yes(questionnaire, Questions[i])
    ensures r == 0 <==> forall i :: 0 <= i < |Questions| ==> !Yes(questionnaire, Questions[i])
  {
    var positiveAnswers := PositiveAnswers(questionnaire, Questions);
    var score := positiveAnswers as real / |Questions| as real * 100.0;
    assert score == [0.0, 100.0 / 3.0, 200.0 / 3.0, 100.0][positiveAnswers];
    Round(score)
  }

  method CalculatePostureScore(questionnaire: map<string, Scalar>) returns (score: int)
    ensures score == PostureScore(questionnaire)
  {
    var questions := Questions;
    var positiveAnswers := 0;
    for i := 0 to |questions|
      invariant positiveAnswers == PositiveAnswers(questionnaire, questions[..i])
    {
      assert questions[..i + 1][..i] == questions[..i];
      if questions[i] in questionnaire && questionnaire[questions[i]] == Bool(true) {
        positiveAnswers := positiveAnswers + 1;
      }
    }
    assert questions[..|questions|] == questions;
    score := Round(positiveAnswers as real / |questions| as real * 100.0);
  }

  lemma {:induction false} PositiveAnswersMonotone(questionnaire: map<string, Scalar>, question: string,
                                                    questions: seq<string>)
    ensures PositiveAnswers(questionnaire, questions) <=
            PositiveAnswers(questionnaire[question := Bool(true)], questions)
    decreases |questions|
  {
    if questions != [] {
      PositiveAnswersMonotone(questionnaire, question, questions[..|questions| - 1]);
    }
  }

  /** Answering one more question with true never lowers the posture score. */
  lemma PostureMonotone(questionnaire: map<string, Scalar>, question: string)
    ensures PostureScore(questionnaire) <= PostureScore(questionnaire[question := Bool(true)])
  {
    PositiveAnswersMonotone(questionnaire, question, Questions);
  }

  // ---------------------------------------------------------------------------
  // Overall score and readiness

  const DataWeight: real := 0.25
  const CoverageWeight: real := 0.35
  const RulesWeight: real := 0.30
  const PostureWeight: real := 0.10

  /** The weighted sum of the four sub-scores, clamped to [0, 100] and rounded. */
  function OverallScore(data: int, coverage: int, rules: int, posture: int): (r: int)
    ensures 0 <= r <= 100
  {
    var weightedSum := data as real * DataWeight + coverage as real * CoverageWeight +
                       rules as real * RulesWeight + posture as real * PostureWeight;
    RoundBounded(Clamp100(weightedSum));
    Round(Clamp100(weightedSum))
  }

  /** Raising any sub-score, the others held fixed, never lowers the overall score. */
  lemma OverallMonotone(d1: int, c1: int, r1: int, p1: int, d2: int, c2: int, r2: int, p2: int)
    requires d1 <= d2 && c1 <= c2 && r1 <= r2 && p1 <= p2
    ensures OverallScore(d1, c1, r1, p1) <= OverallScore(d2, c2, r2, p2)
  {
    var s1 := d1 as real * DataWeight + c1 as real * CoverageWeight + r1 as real * RulesWeight + p1 as real * PostureWeight;
    var s2 := d2 as real * DataWeight + c2 as real * CoverageWeight + r2 as real * RulesWeight + p2 as real * PostureWeight;
    assert Clamp100(s1) <= Clamp100(s2);
    RoundMonotone(Clamp100(s1), Clamp100(s2));
  }

  /** The weights add up to one: four equal sub-scores give that score back. */
  lemma OverallOfEqualScores(s: int)
    requires 0 <= s <= 100
    ensures OverallScore(s, s, s, s) == s
  {
    RoundOfInt(s);
  }

  datatype Readiness = Low | Medium | High

  function ReadinessLabel(overallScore: int): (r: Readiness)
    ensures r == High <==> overallScore >= 75
    ensures r == Medium <==> 50 <= overallScore < 75
    ensures r == Low <==> overallScore < 50
  {
    if overallScore >= 75 then High
    else if overallScore >= 50 then Medium
    else Low
  }

  function Rank(r: Readiness): nat
  {
    match r
    case Low => 0
    case Medium => 1
    case High => 2
  }

  /** A higher overall score never gives a lower label. */
  lemma ReadinessMonotone(s1: int, s2: int)
    requires s1 <= s2
    ensures Rank(ReadinessLabel(s1)) <= Rank(ReadinessLabel(s2))
  {
  }

  // ---------------------------------------------------------------------------
  // All scores

  /** The rules score is taken over as it is; the other three are computed here and
      the overall score combines all four. */
  function CalculateScores(schema: Gets, input: ScoringInput): (r: ScoreBreakdown)
    requires TargetsInSchema(schema, input.coverage)
    ensures r.rules == input.rulesResult.score
    ensures input.parsedRowsCount <= input.totalRowsAttempted ==> 0 <= r.data <= 100
    ensures 0 <= r.coverage <= 100 && 0 <= r.overall <= 100
    ensures r.posture in {0, 33, 67, 100}
    ensures r.overall == OverallScore(r.data, r.coverage, r.rules, r.posture)
  {
    var dataScore := DataScore(input.parsedRowsCount, input.totalRowsAttempted);
    var coverageScore := CoverageScore(schema, input.coverage);
    var rulesScore := input.rulesResult.score;
    var postureScore := PostureScore(input.questionnaire);
    var overall := OverallScore(dataScore, coverageScore, rulesScore, postureScore);
    ScoreBreakdown(dataScore, coverageScore, rulesScore, postureScore, overall)
  }

  // ---------------------------------------------------------------------------
  // Gaps

  const MissingFieldPrefix: string := "Missing required field: "
  const TotalsGap: string := "Invoice " + "totals do not balance (total_excl_vat + vat_amount \U{2260} total_incl_vat)"
  const LineMathGap: string := "Line " + "item calculations incorrect (qty \U{D7} unit_price \U{2260} line_total)"
  const TrnGap: string := "Missing buyer.trn or seller.trn"

  function DateGap(shown: string): string
  {
    "Invalid date format: " + shown + " should be YYYY-MM-DD"
  }

  function CurrencyGap(shown: string): string
  {
    "Invalid currency: " + shown + " not in allowed list [AED, SAR, MYR, USD]"
  }

  /** `value || fallback` for an optional string: an absent or empty value gives the
      fallback. */
  function OrText(value: Option<string>, fallback: string): string
  {
    if value.Some? && value.value != "" then value.value else fallback
  }

  predicate IsMissingLine(line: string)
  {
    MissingFieldPrefix <= line
  }

  /** The line for a schema field is emitted when the schema knows the field and
      requires it. */
  predicate RequiredField(fields: seq<FieldSpec>, path: string)
  {
    Lookup(fields, path).Some? && Lookup(fields, path).value.required
  }

  function MissingGaps(fields: seq<FieldSpec>, missing: seq<string>): (r: seq<string>)
    ensures |r| <= |missing|
    ensures forall i :: 0 <= i < |r| ==> IsMissingLine(r[i])
    decreases |missing|
  {
    if missing == [] then []
    else
      var m := missing[|missing| - 1];
      MissingGaps(fields, missing[..|missing| - 1]) +
      (if RequiredField(fields, m) then [MissingFieldPrefix + m] else [])
  }

  const KnownRules: set<string> := {RulesValidator.TotalsBalanceRule, RulesValidator.LineMathRule,
                                    RulesValidator.DateIsoRule, RulesValidator.CurrencyAllowedRule,
                                    RulesValidator.TrnPresentRule}

  /** The line for one finding: none for a passing finding or an unknown rule. */
  function RuleGap(f: RulesValidator.RuleFinding): (r: Option<string>)
    ensures r.Some? <==> !f.ok && f.rule in KnownRules
    ensures r.Some? ==> !IsMissingLine(r.value)
  {
    if f.ok then None
    else if f.rule == RulesValidator.TotalsBalanceRule then
      assert TotalsGap[0] != MissingFieldPrefix[0];
      Some(TotalsGap)
    else if f.rule == RulesValidator.LineMathRule then
      assert LineMathGap[0] != MissingFieldPrefix[0];
      Some(LineMathGap)
    else if f.rule == RulesValidator.DateIsoRule then
      assert DateGap(OrText(f.value, "dates"))[0] != MissingFieldPrefix[0];
      Some(DateGap(OrText(f.value, "dates")))
    else if f.rule == RulesValidator.CurrencyAllowedRule then
      assert CurrencyGap(OrText(f.value, "currency"))[0] != MissingFieldPrefix[0];
      Some(CurrencyGap(OrText(f.value, "currency")))
    else if f.rule == RulesValidator.TrnPresentRule then
      assert TrnGap[8] != MissingFieldPrefix[8];
      Some(TrnGap)
    else None
  }

  function RuleGaps(findings: seq<RulesValidator.RuleFinding>): (r: seq<string>)
    ensures |r| <= |findings|
    ensures forall i :: 0 <= i < |r| ==> !IsMissingLine(r[i])
    decreases |findings|
  {
    if findings == [] then []
    else
      var f := findings[|findings| - 1];
      RuleGaps(findings[..|findings| - 1]) + (if RuleGap(f).Some? then [RuleGap(f).value] else [])
  }

  /** The coverage lines, in `missing` order, then the rule lines, in findings order. */
  function Gaps(schema: Gets, coverage: CoverageResult, rulesResult: RulesValidator.RulesResult): (r: seq<string>)
    ensures forall i :: 0 <= i < |r| ==>
              (IsMissingLine(r[i]) <==> i < |MissingGaps(schema.fields, coverage.missing)|)
  {
    MissingGaps(schema.fields, coverage.missing) + RuleGaps(rulesResult.findings)
  }

  /** `generateGaps`: a line per missing required field, then a line per failing
      rule, both pushed onto one list. */
  method GenerateGaps(schema: Gets, coverage: CoverageResult, rulesResult: RulesValidator.RulesResult)
    returns (gaps: seq<string>)
    ensures gaps == Gaps(schema, coverage, rulesResult)
  {
    gaps := PushMissingFieldGaps([], schema.fields, coverage.missing);
    gaps := PushRuleGaps(gaps, rulesResult.findings);
  }

  /** The first loop of `generateGaps`: pushes the line of each missing field the
      schema requires. */
  method PushMissingFieldGaps(gaps0: seq<string>, fields: seq<FieldSpec>, missing: seq<string>)
    returns (gaps: seq<string>)
    ensures gaps == gaps0 + MissingGaps(fields, missing)
  {
    gaps := gaps0;
    for i := 0 to |missing|
      invariant gaps == gaps0 + MissingGaps(fields, missing[..i])
    {
      assert missing[..i + 1][..i] == missing[..i];
      var missingField := missing[i];
      var fieldSpec := Lookup(fields, missingField);
      if fieldSpec.Some? && fieldSpec.value.required {
        gaps := gaps + [MissingFieldPrefix + missingField];
      }
    }
    assert missing[..|missing|] == missing;
  }

  /** The second loop of `generateGaps`: pushes the line of each failing finding of a
      known rule. */
  method PushRuleGaps(gaps0: seq<string>, findings: seq<RulesValidator.RuleFinding>)
    returns (gaps: seq<string>)
    ensures gaps == gaps0 + RuleGaps(findings)
  {
    gaps := gaps0;
    for i := 0 to |findings|
      invariant gaps == gaps0 + RuleGaps(findings[..i])
    {
      assert findings[..i + 1][..i] == findings[..i];
      var finding := findings[i];
      if !finding.ok {
        if finding.rule == RulesValidator.TotalsBalanceRule {
          gaps := gaps + [TotalsGap];
        } else if finding.rule == RulesValidator.LineMathRule {
          gaps := gaps + [LineMathGap];
        } else if finding.rule == RulesValidator.DateIsoRule {
          gaps := gaps + [DateGap(OrText(finding.value, "dates"))];
        } else if finding.rule == RulesValidator.CurrencyAllowedRule {
          gaps := gaps + [CurrencyGap(OrText(finding.value, "currency"))];
        } else if finding.rule == RulesValidator.TrnPresentRule {
          gaps := gaps + [TrnGap];
        }
      }
    }
    assert findings[..|findings|] == findings;
  }

  /** The paths of the required schema fields. */
  function RequiredPaths(fields: seq<FieldSpec>): set<string>
  {
    set f | f in fields && f.required :: f.path
  }

  function Prefixed(paths: seq<string>): (r: seq<string>)
    ensures |r| == |paths|
    ensures forall i :: 0 <= i < |paths| ==> r[i] == MissingFieldPrefix + paths[i]
  {
    seq(|paths|, i requires 0 <= i < |paths| => MissingFieldPrefix + paths[i])
  }

  /** With unique paths, a field gets a line exactly when it is required. */
  lemma RequiredFieldIff(fields: seq<FieldSpec>, path: string)
    requires Distinct(Paths(fields))
    ensures RequiredField(fields, path) <==> path in RequiredPaths(fields)
  {
    if path in RequiredPaths(fields) {
      var i :| 0 <= i < |fields| && fields[i].required && fields[i].path == path;
      LookupOwnPath(fields, i);
    }
  }

  /** One "Missing required field" line per missing field that the schema requires,
      in the order of `missing`. */
  lemma {:induction false} MissingGapsAreRequiredFields(fields: seq<FieldSpec>, missing: seq<string>)
    requires Distinct(Paths(fields))
    ensures MissingGaps(fields, missing) == Prefixed(Filter(missing, RequiredPaths(fields)))
    decreases |missing|
  {
    if missing != [] {
      var init := missing[..|missing| - 1];
      var m := missing[|missing| - 1];
      var keep := RequiredPaths(fields);
      MissingGapsAreRequiredFields(fields, init);
      RequiredFieldIff(fields, m);
      if m in keep {
        assert Prefixed(Filter(init, keep) + [m]) == Prefixed(Filter(init, keep)) + [MissingFieldPrefix + m];
      }
    }
  }

  /** When every finding names one of the five rules, there is one rule line per
      failing finding. */
  lemma {:induction false} RuleGapsCount(findings: seq<RulesValidator.RuleFinding>)
    requires forall i :: 0 <= i < |findings| ==> findings[i].rule in KnownRules
    ensures |RuleGaps(findings)| == |findings| - RulesValidator.CountOk(findings)
    decreases |findings|
  {
    if findings != [] {
      RuleGapsCount(findings[..|findings| - 1]);
    }
  }

  /** Five findings of the five rules in the order a validation run gives them:
      5 minus the number of passing rules, so no rule line at all exactly when
      their score is 100. */
  lemma FiveRuleGaps(findings: seq<RulesValidator.RuleFinding>)
    requires |findings| == 5
    requires findings[0].rule == RulesValidator.TotalsBalanceRule && findings[1].rule == RulesValidator.LineMathRule &&
             findings[2].rule == RulesValidator.DateIsoRule && findings[3].rule == RulesValidator.CurrencyAllowedRule &&
             findings[4].rule == RulesValidator.TrnPresentRule
    ensures |RuleGaps(findings)| == 5 - RulesValidator.CountOk(findings)
    ensures RuleGaps(findings) == [] <==> RulesValidator.Score(findings) == 100
  {
    RuleGapsCount(findings);
  }

  /** For the findings of a validation run the above holds. */
  lemma RulesGaps(rt: JsRuntime, rows: seq<Row>, resolve: RulesValidator.Resolver)
    ensures var r := RulesValidator.Rules(rt, rows, resolve);
            |RuleGaps(r.findings)| == 5 - RulesValidator.CountOk(r.findings) &&
            (RuleGaps(r.findings) == [] <==> r.score == 100)
  {
    var r := RulesValidator.Rules(rt, rows, resolve);
    FiveRuleGaps(r.findings);
  }

  /** A failing DATE_ISO quotes the first bad issue date, or says "dates" when that
      date is the empty string. */
  lemma DateGapQuotesValue(rt: JsRuntime, rows: seq<Row>, resolve: RulesValidator.Resolver, j: nat)
    requires j < |rows| && RulesValidator.BadDate(rt, rows[j], resolve)
    requires forall k :: 0 <= k < j ==> !RulesValidator.BadDate(rt, rows[k], resolve)
    ensures var s := RulesValidator.IssueDate(rt, rows[j], resolve).value;
            RuleGap(RulesValidator.DateIso(rt, rows, resolve)) == Some(DateGap(if s == "" then "dates" else s))
  {
    RulesValidator.DateIsoExample(rt, rows, resolve, j);
  }

  /** A failing CURRENCY_ALLOWED quotes the first disallowed currency upper-cased, or
      says "currency" when it is the empty string. */
  lemma CurrencyGapQuotesValue(rt: JsRuntime, rows: seq<Row>, resolve: RulesValidator.Resolver, j: nat)
    requires j < |rows| && RulesValidator.BadCurrency(rt, rows[j], resolve)
    requires forall k :: 0 <= k < j ==> !RulesValidator.BadCurrency(rt, rows[k], resolve)
    ensures var s := RulesValidator.CurrencyCode(rt, rows[j], resolve).value;
            RuleGap(RulesValidator.CurrencyAllowed(rt, rows, resolve)) == Some(CurrencyGap(if s == "" then "currency" else s))
  {
    RulesValidator.CurrencyAllowedExample(rt, rows, resolve, j);
  }
}
