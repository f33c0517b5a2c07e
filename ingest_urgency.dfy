/**
 * The urgency scorer of the ingestion scripts (`calculateUrgency` in both
 * the TypeScript and the JavaScript variant, which are the same code):
 * three additive rules, a narrower set than the live scorer's. It is kept
 * separate from `LiveUrgency` on purpose.
 */
module IngestUrgency {
  import opened Common
  import opened Text

  const KeywordReason := Reason("Keyword", "Contains urgent keywords")
  const CriticalReason := Reason("Critical", "Negative sentiment/Blockage")
  const GapReason := Reason("Gap", "Long wait time")

  datatype Rule = Keyword | Critical | LongGap

  /** The rules in the order the scorer evaluates them. */
  const RuleTable: seq<Rule> := [Keyword, Critical, LongGap]

  function Points(r: Rule): nat
  {
    match r
    case Keyword => 30
    case Critical => 40
    case LongGap => 20
  }

  function ReasonOf(r: Rule): Reason
  {
    match r
    case Keyword => KeywordReason
    case Critical => CriticalReason
    case LongGap => GapReason
  }

  /** The keyword test: the lower-cased text includes "loan", "money" or "urgent" (here "urgent" is a keyword). */
  predicate KeywordText(content: string)
  {
    var lower := Lower(content);
    Includes(lower, "loan") || Includes(lower, "money") || Includes(lower, "urgent")
  }

  /** The critical test: the lower-cased text includes "blocked", "rejected" or "denied" (here "error" is not one). */
  predicate CriticalText(content: string)
  {
    var lower := Lower(content);
    Includes(lower, "blocked") || Includes(lower, "rejected") || Includes(lower, "denied")
  }

  /** What the rules look at: the two text tests and the gap. */
  datatype Signals = Signals(keyword: bool, critical: bool, gapHours: real)

  function Observe(content: string, gapHours: real): Signals
  {
    Signals(KeywordText(content), CriticalText(content), gapHours)
  }

  predicate Fires(r: Rule, s: Signals)
  {
    match r
    case Keyword => s.keyword
    case Critical => s.critical
    case LongGap => s.gapHours > 24.0
  }

  function Keep(r: Rule, s: Signals): seq<Rule>
  {
    if Fires(r, s) then [r] else []
  }

  /** The rules of `rules` that fire, in their order. */
  function FiredRules(rules: seq<Rule>, s: Signals): seq<Rule>
  {
    if rules == [] then [] else Keep(rules[0], s) + FiredRules(rules[1..], s)
  }

  function TotalPoints(rules: seq<Rule>): nat
  {
    if rules == [] then 0 else Points(rules[0]) + TotalPoints(rules[1..])
  }

  function ReasonsOf(rules: seq<Rule>): seq<Reason>
  {
    if rules == [] then [] else [ReasonOf(rules[0])] + ReasonsOf(rules[1..])
  }

  /** The table applied to observed signals: capped sum of the fired rules' points, their reasons in table order. */
  function Evaluate(s: Signals): UrgencyResult
  {
    var fired := FiredRules(RuleTable, s);
    UrgencyResult(Min(TotalPoints(fired), 100), ReasonsOf(fired))
  }

  /** Reference definition of the ingestion scorer. */
  function Assess(content: string, gapHours: real): UrgencyResult
  {
    Evaluate(Observe(content, gapHours))
  }

  /** The uncapped sum of the fired rules' points. */
  function RawPoints(s: Signals): nat
  {
    (if s.keyword then 30 else 0) + (if s.critical then 40 else 0) + (if s.gapHours > 24.0 then 20 else 0)
  }

  lemma TotalPointsKeep(r: Rule, s: Signals, rest: seq<Rule>)
    ensures TotalPoints(Keep(r, s) + rest) == (if Fires(r, s) then Points(r) else 0) + TotalPoints(rest)
  {
    if Fires(r, s) {
      assert ([r] + rest)[1..] == rest;
    } else {
      assert [] + rest == rest;
    }
  }

  lemma ReasonsOfKeep(r: Rule, s: Signals, rest: seq<Rule>)
    ensures ReasonsOf(Keep(r, s) + rest) == (if Fires(r, s) then [ReasonOf(r)] else []) + ReasonsOf(rest)
  {
    if Fires(r, s) {
      assert ([r] + rest)[1..] == rest;
    } else {
      assert [] + rest == rest;
    }
  }

  /** The filtered table, one rule after the other. */
  lemma FiredUnrolled(s: Signals)
    ensures FiredRules(RuleTable, s) == Keep(Keyword, s) + (Keep(Critical, s) + Keep(LongGap, s))
  {
    var t := RuleTable;
    assert t[1..] == [Critical, LongGap];
    assert t[1..][1..] == [LongGap];
    assert t[1..][1..][1..] == [];
    calc {
      FiredRules(t, s);
      Keep(Keyword, s) + FiredRules(t[1..], s);
      Keep(Keyword, s) + (Keep(Critical, s) + FiredRules(t[1..][1..], s));
      Keep(Keyword, s) + (Keep(Critical, s) + (Keep(LongGap, s) + FiredRules(t[1..][1..][1..], s)));
      { assert Keep(LongGap, s) + [] == Keep(LongGap, s); }
      Keep(Keyword, s) + (Keep(Critical, s) + Keep(LongGap, s));
    }
  }

  /**
   * The table, unrolled: the score is the plain sum of the fired rules'
   * points, and the reasons are theirs in table order.
   */
  lemma EvaluateUnrolled(s: Signals)
    ensures Evaluate(s).score == Min(RawPoints(s), 100)
    ensures Evaluate(s).reasons
         == (if s.keyword then [KeywordReason] else [])
          + (if s.critical then [CriticalReason] else [])
          + (if s.gapHours > 24.0 then [GapReason] else [])
  {
    FiredUnrolled(s);
    var k3 := Keep(LongGap, s);
    var k23 := Keep(Critical, s) + k3;
    assert k3 + [] == k3;
    TotalPointsKeep(LongGap, s, []);
    TotalPointsKeep(Critical, s, k3);
    TotalPointsKeep(Keyword, s, k23);
    ReasonsOfKeep(LongGap, s, []);
    ReasonsOfKeep(Critical, s, k3);
    ReasonsOfKeep(Keyword, s, k23);
    var g1 := if s.keyword then [KeywordReason] else [];
    var g2 := if s.critical then [CriticalReason] else [];
    var g3 := if s.gapHours > 24.0 then [GapReason] else [];
    assert g3 + [] == g3;
    AppendAssociative(g1, g2, g3);
  }

  /**
   * The points add up to at most 90, so the cap of 100 never binds: the
   * score is exactly the sum of the fired rules' points.
   */
  lemma CapNeverBinds(content: string, gapHours: real)
    ensures var s := Observe(content, gapHours);
      && Assess(content, gapHours).score == RawPoints(s) == TotalPoints(FiredRules(RuleTable, s))
      && 0 <= Assess(content, gapHours).score <= 90
  {
    EvaluateUnrolled(Observe(content, gapHours));
  }

  /**
   * Reasons come out in the order Keyword, Critical, Gap; there are at
   * most three and no pair repeats; each is reported exactly when its rule
   * fires, and the Gap reason exactly when the gap is over 24 hours.
   */
  lemma ReasonsInEvaluationOrder(content: string, gapHours: real)
    ensures var s := Observe(content, gapHours);
      var rs := Assess(content, gapHours).reasons;
      && rs == (if s.keyword then [KeywordReason] else [])
             + (if s.critical then [CriticalReason] else [])
             + (if gapHours > 24.0 then [GapReason] else [])
      && |rs| <= 3
      && NoDuplicates(rs)
      && (KeywordReason in rs <==> KeywordText(content))
      && (CriticalReason in rs <==> CriticalText(content))
      && (GapReason in rs <==> gapHours > 24.0)
  {
    EvaluateUnrolled(Observe(content, gapHours));
  }

  /** For a fixed text, a longer wait never lowers the score. */
  lemma ScoreMonotoneInGap(content: string, gap1: real, gap2: real)
    requires gap1 <= gap2
    ensures Assess(content, gap1).score <= Assess(content, gap2).score
  {
    EvaluateUnrolled(Observe(content, gap1));
    EvaluateUnrolled(Observe(content, gap2));
  }

  /**
   * The scorer as the ingestion script runs it: a running score and a
   * reason list grown rule by rule, then `Math.min(score, 100)`. It returns
   * exactly the reference.
   */
  method CalculateUrgency(content: string, timeGapHours: real) returns (result: UrgencyResult)
    ensures result == Assess(content, timeGapHours)
  {
    var score := 0;
    var reasons: seq<Reason> := [];
    ghost var sig := Observe(content, timeGapHours);

    if KeywordText(content) {
      score := score + 30;
      reasons := reasons + [KeywordReason];
    }
    ghost var g1 := if sig.keyword then [KeywordReason] else [];
    assert reasons == g1;
    if CriticalText(content) {
      score := score + 40;
      reasons := reasons + [CriticalReason];
    }
    ghost var g2 := if sig.critical then [CriticalReason] else [];
    assert reasons == g1 + g2;
    if timeGapHours > 24.0 {
      score := score + 20;
      reasons := reasons + [GapReason];
    }
    assert score == RawPoints(sig);

    result := UrgencyResult(Min(score, 100), reasons);
    EvaluateUnrolled(sig);
  }
}
