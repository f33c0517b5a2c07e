/**
 * The live urgency scorer of the API service (`calculateUrgency` of the
 * urgency service): five additive rules, the total capped at 100.
 *
 * `Assess` is the reference definition: a rule table in evaluation order,
 * filtered by which rules fire, with the points of the fired rules summed.
 * `CalculateUrgency` is the step-by-step accumulator the service runs, and
 * is proved to return exactly `Assess`.
 */
module LiveUrgency {
  import opened Common
  import opened Text

  const FinancialReason := Reason("Keyword", "Financial intent detected")
  const ExplicitUrgencyReason := Reason("Keyword", "Explicit urgency")
  const CriticalReason := Reason("Critical", "Blockage or negative sentiment")
  const SentimentReason := Reason("Sentiment", "High emotional intensity (Caps/Punctuation)")
  const ModerateGapReason := Reason("Gap", "Waiting > 6 hours")
  const SevereGapReason := Reason("Gap", "Waiting > 24 hours")

  datatype Rule = Financial | ExplicitUrgency | Critical | Sentiment | ModerateGap | SevereGap

  /** The rules in the order the scorer evaluates them. */
  const RuleTable: seq<Rule> := [Financial, ExplicitUrgency, Critical, Sentiment, ModerateGap, SevereGap]

  /** Position of a rule in `RuleTable`. */
  function Rank(r: Rule): nat
  {
    match r
    case Financial => 0
    case ExplicitUrgency => 1
    case Critical => 2
    case Sentiment => 3
    case ModerateGap => 4
    case SevereGap => 5
  }

  function Points(r: Rule): nat
  {
    match r
    case Financial => 20
    case ExplicitUrgency => 25
    case Critical => 40
    case Sentiment => 15
    case ModerateGap => 10
    case SevereGap => 30
  }

  function ReasonOf(r: Rule): Reason
  {
    match r
    case Financial => FinancialReason
    case ExplicitUrgency => ExplicitUrgencyReason
    case Critical => CriticalReason
    case Sentiment => SentimentReason
    case ModerateGap => ModerateGapReason
    case SevereGap => SevereGapReason
  }

  /** Position of a reason in the catalogue of the six reasons; 6 for any other pair. */
  function Position(x: Reason): nat
  {
    if x == FinancialReason then 0
    else if x == ExplicitUrgencyReason then 1
    else if x == CriticalReason then 2
    else if x == SentimentReason then 3
    else if x == ModerateGapReason then 4
    else if x == SevereGapReason then 5
    else 6
  }

  /** The financial test: the lower-cased text includes "loan", "money" or "fund". */
  predicate FinancialText(content: string)
  {
    var lower := Lower(content);
    Includes(lower, "loan") || Includes(lower, "money") || Includes(lower, "fund")
  }

  /** The explicit-urgency test: the lower-cased text includes "urgent", "wait" or "asap". */
  predicate UrgencyText(content: string)
  {
    var lower := Lower(content);
    Includes(lower, "urgent") || Includes(lower, "wait") || Includes(lower, "asap")
  }

  /** The critical test: the lower-cased text includes "blocked", "rejected", "denied" or "error". */
  predicate CriticalText(content: string)
  {
    var lower := Lower(content);
    Includes(lower, "blocked") || Includes(lower, "rejected") || Includes(lower, "denied") || Includes(lower, "error")
  }

  /** `"??"` anywhere, or the text equals its upper-case form and is longer than 10. */
  predicate IntenseText(content: string)
  {
    Includes(content, "??") || (content == Upper(content) && |content| > 10)
  }

  /** What the rules look at: the four text tests and the gap. */
  datatype Signals = Signals(financial: bool, urgency: bool, critical: bool, intense: bool, gapHours: real)

  function Observe(content: string, gapHours: real): Signals
  {
    Signals(FinancialText(content), UrgencyText(content), CriticalText(content), IntenseText(content), gapHours)
  }

  predicate Fires(r: Rule, s: Signals)
  {
    match r
    case Financial => s.financial
    case ExplicitUrgency => s.urgency
    case Critical => s.critical
    case Sentiment => s.intense
    case ModerateGap => 6.0 < s.gapHours <= 24.0
    case SevereGap => s.gapHours > 24.0
  }

  /** The rules of `rules` that fire, in their order. */
  function FiredRules(rules: seq<Rule>, s: Signals): seq<Rule>
  {
    if rules == [] then []
    else Keep(rules[0], s) + FiredRules(rules[1..], s)
  }

  function Keep(r: Rule, s: Signals): seq<Rule>
  {
    if Fires(r, s) then [r] else []
  }

  function TotalPoints(rules: seq<Rule>): nat
  {
    if rules == [] then 0 else Points(rules[0]) + TotalPoints(rules[1..])
  }

  function ReasonsOf(rules: seq<Rule>): seq<Reason>
  {
    if rules == [] then [] else [ReasonOf(rules[0])] + ReasonsOf(rules[1..])
  }

  /** The table applied to observed signals: capped sum of the fired rules' points, their reasons in table order. */
  function Evaluate(s: Signals): UrgencyResult
  {
    var fired := FiredRules(RuleTable, s);
    UrgencyResult(Min(TotalPoints(fired), 100), ReasonsOf(fired))
  }

  /** Reference definition of the live scorer. */
  function Assess(content: string, gapHours: real): UrgencyResult
  {
    Evaluate(Observe(content, gapHours))
  }

  /** Points contributed by the gap rules: 0, 10 or 30. */
  function GapPoints(gapHours: real): nat
  {
    if 6.0 < gapHours <= 24.0 then 10 else if gapHours > 24.0 then 30 else 0
  }

  /** Points contributed by the four text rules. */
  function TextPoints(s: Signals): nat
  {
    (if s.financial then 20 else 0) + (if s.urgency then 25 else 0)
    + (if s.critical then 40 else 0) + (if s.intense then 15 else 0)
  }

  /** The suffixes of the literal table. */
  lemma TableSuffixes()
    ensures RuleTable[1..] == [ExplicitUrgency, Critical, Sentiment, ModerateGap, SevereGap]
    ensures RuleTable[2..] == [Critical, Sentiment, ModerateGap, SevereGap]
    ensures RuleTable[3..] == [Sentiment, ModerateGap, SevereGap]
    ensures RuleTable[4..] == [ModerateGap, SevereGap]
    ensures RuleTable[5..] == [SevereGap]
    ensures RuleTable[6..] == []
  {
  }

  /** The filtered table, one rule after the other. */
  lemma FiredUnrolled(s: Signals)
    ensures FiredRules(RuleTable, s)
         == Keep(Financial, s) + (Keep(ExplicitUrgency, s) + (Keep(Critical, s)
          + (Keep(Sentiment, s) + (Keep(ModerateGap, s) + Keep(SevereGap, s)))))
  {
    TableSuffixes();
    var t := RuleTable;
    calc {
      FiredRules(t, s);
      Keep(t[0], s) + FiredRules(t[1..], s);
      { assert t[1..][1..] == t[2..]; }
      Keep(Financial, s) + (Keep(ExplicitUrgency, s) + FiredRules(t[2..], s));
      { assert t[2..][1..] == t[3..]; }
      Keep(Financial, s) + (Keep(ExplicitUrgency, s) + (Keep(Critical, s) + FiredRules(t[3..], s)));
      { assert t[3..][1..] == t[4..]; }
      Keep(Financial, s) + (Keep(ExplicitUrgency, s) + (Keep(Critical, s)
        + (Keep(Sentiment, s) + FiredRules(t[4..], s))));
      { assert t[4..][1..] == t[5..]; assert t[5..][1..] == t[6..]; }
      Keep(Financial, s) + (Keep(ExplicitUrgency, s) + (Keep(Critical, s)
        + (Keep(Sentiment, s) + (Keep(ModerateGap, s) + (Keep(SevereGap, s) + FiredRules(t[6..], s))))));
      { assert Keep(SevereGap, s) + [] == Keep(SevereGap, s); }
      Keep(Financial, s) + (Keep(ExplicitUrgency, s) + (Keep(Critical, s)
        + (Keep(Sentiment, s) + (Keep(ModerateGap, s) + Keep(SevereGap, s)))));
    }
  }

  lemma TotalPointsKeep(r: Rule, s: Signals, rest: seq<Rule>)
    ensures TotalPoints(Keep(r, s) + rest) == (if Fires(r, s) then Points(r) else 0) + TotalPoints(rest)
  {
    if Fires(r, s) {
      assert ([r] + rest)[1..] == rest;
    } else {
      assert [] + rest == rest;
    }
  }

  lemma ReasonsOfKeep(r: Rule, s: Signals, rest: seq<Rule>)
    ensures ReasonsOf(Keep(r, s) + rest) == (if Fires(r, s) then [ReasonOf(r)] else []) + ReasonsOf(rest)
  {
    if Fires(r, s) {
      assert ([r] + rest)[1..] == rest;
    } else {
      assert [] + rest == rest;
    }
  }

  /** The score is the sum of the text points and the gap points, capped at 100. */
  lemma EvaluateScore(s: Signals)
    ensures Evaluate(s).score == Min(TextPoints(s) + GapPoints(s.gapHours), 100)
  {
    FiredUnrolled(s);
    var k6 := Keep(SevereGap, s);
    var k56 := Keep(ModerateGap, s) + k6;
    var k46 := Keep(Sentiment, s) + k56;
    var k36 := Keep(Critical, s) + k46;
    var k26 := Keep(ExplicitUrgency, s) + k36;
    TotalPointsKeep(SevereGap, s, []);
    assert k6 + [] == k6;
    TotalPointsKeep(ModerateGap, s, k6);
    TotalPointsKeep(Sentiment, s, k56);
    TotalPointsKeep(Critical, s, k46);
    TotalPointsKeep(ExplicitUrgency, s, k36);
    TotalPointsKeep(Financial, s, k26);
  }

  /** The reasons are those of the fired rules, in table order. */
  lemma EvaluateReasons(s: Signals)
    ensures Evaluate(s).reasons
         == (if s.financial then [FinancialReason] else [])
          + (if s.urgency then [ExplicitUrgencyReason] else [])
          + (if s.critical then [CriticalReason] else [])
          + (if s.intense then [SentimentReason] else [])
          + (if 6.0 < s.gapHours <= 24.0 then [ModerateGapReason] else [])
          + (if s.gapHours > 24.0 then [SevereGapReason] else [])
  {
    FiredUnrolled(s);
    var k6 := Keep(SevereGap, s);
    var k56 := Keep(ModerateGap, s) + k6;
    var k46 := Keep(Sentiment, s) + k56;
    var k36 := Keep(Critical, s) + k46;
    var k26 := Keep(ExplicitUrgency, s) + k36;
    var g6 := if s.gapHours > 24.0 then [SevereGapReason] else [];
    var g5 := if 6.0 < s.gapHours <= 24.0 then [ModerateGapReason] else [];
    var g4 := if s.intense then [SentimentReason] else [];
    var g3 := if s.critical then [CriticalReason] else [];
    var g2 := if s.urgency then [ExplicitUrgencyReason] else [];
    var g1 := if s.financial then [FinancialReason] else [];
    ReasonsOfKeep(SevereGap, s, []);
    assert k6 + [] == k6;
    assert g6 + [] == g6;
    assert ReasonsOf(k6) == g6;
    ReasonsOfKeep(ModerateGap, s, k6);
    assert ReasonsOf(k56) == g5 + g6;
    ReasonsOfKeep(Sentiment, s, k56);
    assert ReasonsOf(k46) == g4 + (g5 + g6);
    ReasonsOfKeep(Critical, s, k46);
    assert ReasonsOf(k36) == g3 + (g4 + (g5 + g6));
    ReasonsOfKeep(ExplicitUrgency, s, k36);
    assert ReasonsOf(k26) == g2 + (g3 + (g4 + (g5 + g6)));
    ReasonsOfKeep(Financial, s, k26);
    assert ReasonsOf(Keep(Financial, s) + k26) == g1 + (g2 + (g3 + (g4 + (g5 + g6))));
    AppendAssociative(g1, g2, g3 + (g4 + (g5 + g6)));
    AppendAssociative(g1 + g2, g3, g4 + (g5 + g6));
    AppendAssociative(g1 + g2 + g3, g4, g5 + g6);
    AppendAssociative(g1 + g2 + g3 + g4, g5, g6);
  }

  /** Every score lies in [0, 100] and is the capped sum of the points of the rules that fire. */
  lemma ScoreIsCappedSum(content: string, gapHours: real)
    ensures var fired := FiredRules(RuleTable, Observe(content, gapHours));
      && 0 <= Assess(content, gapHours).score <= 100
      && Assess(content, gapHours).score == Min(TotalPoints(fired), 100)
      && Assess(content, gapHours).score == Min(TextPoints(Observe(content, gapHours)) + GapPoints(gapHours), 100)
  {
    EvaluateScore(Observe(content, gapHours));
  }

  /** Reasons ranked strictly by their place in the catalogue. */
  ghost predicate Ascending(rs: seq<Reason>)
  {
    forall i, j :: 0 <= i < j < |rs| ==> Position(rs[i]) < Position(rs[j])
  }

  /** Rules ranked strictly by their place in the table. */
  ghost predicate RanksAscending(rules: seq<Rule>)
  {
    forall i, j :: 0 <= i < j < |rules| ==> Rank(rules[i]) < Rank(rules[j])
  }

  /** Filtering keeps a subset of the rules and keeps their order. */
  lemma {:induction false} FilterKeepsOrder(rules: seq<Rule>, s: Signals)
    requires RanksAscending(rules)
    ensures RanksAscending(FiredRules(rules, s))
    ensures forall r :: r in FiredRules(rules, s) ==> r in rules
  {
    if rules != [] {
      var rest := FiredRules(rules[1..], s);
      FilterKeepsOrder(rules[1..], s);
      if Fires(rules[0], s) {
        assert FiredRules(rules, s) == [rules[0]] + rest;
        forall r | r in rest ensures Rank(rules[0]) < Rank(r) {
          var k :| 0 <= k < |rules[1..]| && rules[1..][k] == r;
          assert rules[k + 1] == r;
        }
      } else {
        assert FiredRules(rules, s) == rest;
      }
    }
  }

  lemma {:induction false} ReasonsOfKeepsOrder(rules: seq<Rule>)
    requires RanksAscending(rules)
    ensures |ReasonsOf(rules)| == |rules|
    ensures forall i :: 0 <= i < |rules| ==> ReasonsOf(rules)[i] == ReasonOf(rules[i])
    ensures Ascending(ReasonsOf(rules))
  {
    if rules != [] {
      ReasonsOfKeepsOrder(rules[1..]);
      var rs := ReasonsOf(rules);
      assert rs == [ReasonOf(rules[0])] + ReasonsOf(rules[1..]);
      forall i | 0 <= i < |rules| ensures rs[i] == ReasonOf(rules[i]) {
        if i > 0 { assert rs[i] == ReasonsOf(rules[1..])[i - 1]; }
      }
      forall r: Rule ensures Position(ReasonOf(r)) == Rank(r) { }
    }
  }

  /** A rule survives the filter exactly when it is in the list and fires. */
  lemma {:induction false} FiredMembers(rules: seq<Rule>, s: Signals)
    ensures forall r :: r in FiredRules(rules, s) <==> r in rules && Fires(r, s)
  {
    if rules != [] {
      FiredMembers(rules[1..], s);
      assert rules == [rules[0]] + rules[1..];
    }
  }

  /** Different rules give different reasons. */
  lemma ReasonOfInjective(r: Rule, q: Rule)
    ensures ReasonOf(r) == ReasonOf(q) ==> r == q
  {
    assert Position(ReasonOf(r)) == Rank(r) && Position(ReasonOf(q)) == Rank(q);
  }

  /** A rule's reason is in the reasons of a list exactly when the rule is in the list. */
  lemma {:induction false} ReasonsOfMembers(rules: seq<Rule>)
    ensures forall r :: ReasonOf(r) in ReasonsOf(rules) <==> r in rules
  {
    if rules != [] {
      ReasonsOfMembers(rules[1..]);
      assert rules == [rules[0]] + rules[1..];
      forall r ensures ReasonOf(r) == ReasonOf(rules[0]) ==> r == rules[0] {
        ReasonOfInjective(r, rules[0]);
      }
    }
  }

  /** Every rule is in the table, at its rank. */
  lemma InTable(r: Rule)
    ensures r in RuleTable && RuleTable[Rank(r)] == r
  {
  }

  /** The reasons, index by index, are those of the fired rules, which come from the table in table order. */
  lemma EvaluateByIndex(s: Signals)
    ensures var fired := FiredRules(RuleTable, s);
      var rs := Evaluate(s).reasons;
      && |rs| == |fired|
      && RanksAscending(fired)
      && (forall i :: 0 <= i < |rs| ==> rs[i] == ReasonOf(fired[i]) && Fires(fired[i], s))
      && Ascending(rs)
  {
    var fired := FiredRules(RuleTable, s);
    assert RanksAscending(RuleTable);
    FilterKeepsOrder(RuleTable, s);
    FiredMembers(RuleTable, s);
    ReasonsOfKeepsOrder(fired);
  }

  /** Only one of the two gap bands fires, so at most five reasons are reported. */
  lemma EvaluateAtMostFive(s: Signals)
    ensures |Evaluate(s).reasons| <= 5
  {
    EvaluateReasons(s);
  }

  /** A rule's reason sits at the rule's place in the catalogue. */
  lemma PositionOfReason(r: Rule)
    ensures Position(ReasonOf(r)) == Rank(r)
  {
  }

  /** The table-level facts behind `ReasonsInEvaluationOrder`. */
  lemma EvaluateInOrder(s: Signals)
    ensures var rs := Evaluate(s).reasons;
      && Ascending(rs)
      && (forall i :: 0 <= i < |rs| ==> Position(rs[i]) < 6)
      && |rs| <= 5
  {
    var fired := FiredRules(RuleTable, s);
    var rs := Evaluate(s).reasons;
    EvaluateByIndex(s);
    EvaluateAtMostFive(s);
    forall i | 0 <= i < |rs| ensures Position(rs[i]) < 6 {
      PositionOfReason(fired[i]);
    }
  }

  /**
   * Reasons come out in evaluation order (Keyword/financial, Keyword/explicit
   * urgency, Critical, Sentiment, Gap), each from the catalogue, at most five
   * of them and no pair twice.
   */
  lemma ReasonsInEvaluationOrder(content: string, gapHours: real)
    ensures var rs := Assess(content, gapHours).reasons;
      && Ascending(rs)
      && (forall i :: 0 <= i < |rs| ==> Position(rs[i]) < 6)
      && |rs| <= 5
      && NoDuplicates(rs)
  {
    EvaluateInOrder(Observe(content, gapHours));
  }

  /** A rule's reason has the rule name "Gap" exactly for the two gap bands. */
  lemma GapRules(r: Rule)
    ensures ReasonOf(r).rule == "Gap" <==> r == ModerateGap || r == SevereGap
  {
    assert FinancialReason.rule != "Gap" && ExplicitUrgencyReason.rule != "Gap";
    assert CriticalReason.rule != "Gap" && SentimentReason.rule != "Gap";
  }

  /** The table-level facts behind `GapBandsExclusive`. */
  lemma EvaluateGapBands(s: Signals)
    ensures var rs := Evaluate(s).reasons;
      && (s.gapHours <= 6.0 ==> forall x :: x in rs ==> x.rule != "Gap")
      && (6.0 < s.gapHours <= 24.0 ==> ModerateGapReason in rs && SevereGapReason !in rs)
      && (s.gapHours > 24.0 ==> SevereGapReason in rs && ModerateGapReason !in rs)
      && forall i, j :: 0 <= i < j < |rs| ==> !(rs[i].rule == "Gap" && rs[j].rule == "Gap")
  {
    var fired := FiredRules(RuleTable, s);
    var rs := Evaluate(s).reasons;
    EvaluateByIndex(s);
    EvaluateReportsIffFires(s, ModerateGap);
    EvaluateReportsIffFires(s, SevereGap);
    forall x | x in rs && s.gapHours <= 6.0
      ensures x.rule != "Gap"
    {
      var i :| 0 <= i < |rs| && rs[i] == x;
      GapRules(fired[i]);
    }
    forall i, j | 0 <= i < j < |rs| && rs[i].rule == "Gap"
      ensures rs[j].rule != "Gap"
    {
      GapRules(fired[i]);
      GapRules(fired[j]);
      assert Rank(fired[i]) < Rank(fired[j]);
    }
  }

  /**
   * The gap rule is two exclusive bands: no Gap reason up to 6 hours,
   * "Waiting > 6 hours" over 6 and up to 24, "Waiting > 24 hours" beyond;
   * never two Gap reasons.
   */
  lemma GapBandsExclusive(content: string, gapHours: real)
    ensures var rs := Assess(content, gapHours).reasons;
      && (gapHours <= 6.0 ==> forall x :: x in rs ==> x.rule != "Gap")
      && (6.0 < gapHours <= 24.0 ==> ModerateGapReason in rs && SevereGapReason !in rs)
      && (gapHours > 24.0 ==> SevereGapReason in rs && ModerateGapReason !in rs)
      && forall i, j :: 0 <= i < j < |rs| ==> !(rs[i].rule == "Gap" && rs[j].rule == "Gap")
  {
    EvaluateGapBands(Observe(content, gapHours));
  }

  /** For a fixed text, a longer wait never lowers the score. */
  lemma ScoreMonotoneInGap(content: string, gap1: real, gap2: real)
    requires gap1 <= gap2
    ensures Assess(content, gap1).score <= Assess(content, gap2).score
  {
    EvaluateScore(Observe(content, gap1));
    EvaluateScore(Observe(content, gap2));
    assert GapPoints(gap1) <= GapPoints(gap2);
  }

  /** A rule's reason is reported exactly when the rule fires. */
  lemma EvaluateReportsIffFires(s: Signals, r: Rule)
    ensures ReasonOf(r) in Evaluate(s).reasons <==> Fires(r, s)
  {
    FiredMembers(RuleTable, s);
    ReasonsOfMembers(FiredRules(RuleTable, s));
    InTable(r);
  }

  /** A rule's reason is reported exactly when the rule fires on the text and gap. */
  lemma ReasonReportedIffFires(content: string, gapHours: real, r: Rule)
    ensures ReasonOf(r) in Assess(content, gapHours).reasons <==> Fires(r, Observe(content, gapHours))
  {
    EvaluateReportsIffFires(Observe(content, gapHours), r);
  }

  /**
   * The keyword and critical rules look at the lower-cased text only: two
   * texts that differ in letter case get the same verdict from all three.
   */
  lemma KeywordRulesIgnoreCase(a: string, b: string, gapHours: real)
    requires CaseVariants(a, b)
    ensures forall r :: r in [Financial, ExplicitUrgency, Critical] ==>
      (ReasonOf(r) in Assess(a, gapHours).reasons <==> ReasonOf(r) in Assess(b, gapHours).reasons)
  {
    CaseVariantsLowerEqually(a, b);
    forall r | r in [Financial, ExplicitUrgency, Critical]
      ensures ReasonOf(r) in Assess(a, gapHours).reasons <==> ReasonOf(r) in Assess(b, gapHours).reasons
    {
      ReasonReportedIffFires(a, gapHours, r);
      ReasonReportedIffFires(b, gapHours, r);
    }
  }

  /**
   * Sentiment fires exactly when the text contains "??" or is longer than
   * 10 and holds no lower-case letter (a text with no letters at all counts).
   */
  lemma SentimentIff(content: string, gapHours: real)
    ensures SentimentReason in Assess(content, gapHours).reasons
        <==> Includes(content, "??") || (|content| > 10 && NoLowerCaseLetter(content))
  {
    ReasonReportedIffFires(content, gapHours, Sentiment);
    UpperFixedIff(content);
  }

  /**
   * The score is 0 exactly when no rule fires, and then the reason list is
   * empty: no keyword, no critical word, not intense, and a gap of at most 6 hours.
   */
  lemma NothingFiresIffZero(content: string, gapHours: real)
    ensures var res := Assess(content, gapHours);
      && (res.score == 0 <==> res.reasons == [])
      && (res.reasons == [] <==>
            !FinancialText(content) && !UrgencyText(content) && !CriticalText(content)
            && !IntenseText(content) && gapHours <= 6.0)
  {
    var s := Observe(content, gapHours);
    EvaluateScore(s);
    EvaluateReasons(s);
  }

  /** `calculateUrgency("hello", 0)` scores 0 with no reasons. */
  lemma HelloScoresZero()
    ensures Assess("hello", 0.0) == UrgencyResult(0, [])
  {
    var c := "hello";
    assert Lower(c) == c;
    MissingCharExcludes(c, "loan", 2);
    MissingCharExcludes(c, "money", 0);
    MissingCharExcludes(c, "fund", 0);
    MissingCharExcludes(c, "urgent", 0);
    MissingCharExcludes(c, "wait", 0);
    MissingCharExcludes(c, "asap", 0);
    MissingCharExcludes(c, "blocked", 0);
    MissingCharExcludes(c, "rejected", 0);
    MissingCharExcludes(c, "denied", 0);
    MissingCharExcludes(c, "error", 1);
    MissingCharExcludes(c, "??", 0);
    NothingFiresIffZero(c, 0.0);
  }

  const EveryRuleText := "this is urgent and blocked money ??"

  lemma EveryRuleTextIsLower()
    ensures Lower(EveryRuleText) == EveryRuleText
  {
    var c := EveryRuleText;
    assert forall i :: 0 <= i < |c| ==> Lower(c)[i] == c[i];
  }

  lemma EveryRuleTextSignals()
    ensures Observe(EveryRuleText, 30.0) == Signals(true, true, true, true, 30.0)
  {
    var c := EveryRuleText;
    EveryRuleTextIsLower();
    assert FinancialText(c) by {
      IncludesByChars(c, "money", 27);
    }
    assert UrgencyText(c) by {
      IncludesByChars(c, "urgent", 8);
    }
    assert CriticalText(c) by {
      IncludesByChars(c, "blocked", 19);
    }
    assert IntenseText(c) by {
      IncludesByChars(c, "??", 33);
    }
  }

  /** A message that triggers every text rule after 30 hours: all five reasons, score capped at 100. */
  lemma EveryRuleExample()
    ensures Assess(EveryRuleText, 30.0)
         == UrgencyResult(100, [FinancialReason, ExplicitUrgencyReason, CriticalReason, SentimentReason, SevereGapReason])
  {
    EveryRuleTextSignals();
    var s := Signals(true, true, true, true, 30.0);
    EvaluateScore(s);
    EvaluateReasons(s);
  }

  /**
   * The scorer as the service runs it: a running score and a reason list
   * grown rule by rule, then the cap. It returns exactly the reference.
   */
  method CalculateUrgency(content: string, timeGapHours: real) returns (result: UrgencyResult)
    ensures result == Assess(content, timeGapHours)
  {
    var score := 0;
    var reasons: seq<Reason> := [];
    ghost var sig := Observe(content, timeGapHours);

    if FinancialText(content) {
      score := score + 20;
      reasons := reasons + [FinancialReason];
    }
    ghost var g1 := if sig.financial then [FinancialReason] else [];
    assert score == (if sig.financial then 20 else 0) && reasons == g1;
    if UrgencyText(content) {
      score := score + 25;
      reasons := reasons + [ExplicitUrgencyReason];
    }
    ghost var g2 := if sig.urgency then [ExplicitUrgencyReason] else [];
    assert reasons == g1 + g2;
    if CriticalText(content) {
      score := score + 40;
      reasons := reasons + [CriticalReason];
    }
    ghost var g3 := if sig.critical then [CriticalReason] else [];
    assert reasons == g1 + g2 + g3;
    if IntenseText(content) {
      score := score + 15;
      reasons := reasons + [SentimentReason];
    }
    ghost var g4 := if sig.intense then [SentimentReason] else [];
    assert score == TextPoints(sig) && reasons == g1 + g2 + g3 + g4;
    if timeGapHours > 6.0 && timeGapHours <= 24.0 {
      score := score + 10;
      reasons := reasons + [ModerateGapReason];
    } else if timeGapHours > 24.0 {
      score := score + 30;
      reasons := reasons + [SevereGapReason];
    }
    ghost var g5 := if 6.0 < timeGapHours <= 24.0 then [ModerateGapReason] else [];
    ghost var g6 := if timeGapHours > 24.0 then [SevereGapReason] else [];
    assert score == TextPoints(sig) + GapPoints(timeGapHours) && reasons == g1 + g2 + g3 + g4 + g5 + g6;

    result := UrgencyResult(Min(score, 100), reasons);
    assert result.score == Assess(content, timeGapHours).score by {
      EvaluateScore(sig);
    }
    assert result.reasons == Assess(content, timeGapHours).reasons by {
      EvaluateReasons(sig);
    }
  }
}
