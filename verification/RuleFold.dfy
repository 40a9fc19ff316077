/** How rule results become a dimension's score (internal/assessor/engine.go). */
module RuleFold {
  import opened Sequences
  import opened Assessments
  import Strings

  const WAND_DIMENSIONS: seq<string> :=
    ["juridisch", "technologie", "data_ai", "operationeel", "mens", "accountability", "standards"]

  const STRUCTURAL_REASONS: set<string> := {"registry_redacted", "not_published_by_registry", "scanner_no_ipv6"}

  const GAP_REASONS: set<string> :=
    {"probe_unavailable", "scanner_unreadable_output", "not_measured", "measurement_stale"}

  datatype RuleResult = RuleResult(score: Score, verdict: string, evidence: seq<string>, reason: string,
                                   handeling: string)

  /** A rule and what its body does on the findings at hand: return a result, or panic. */
  datatype Rule = Rule(id: string, dimension: string, outcome: Option<RuleResult>)

  /** safeMatch: a panic leaves no evidence, and an unknown score becomes onbekend. */
  function Matched(r: Rule): (res: RuleResult)
    ensures IsValid(res.score)
  {
    match r.outcome
    case None => RuleResult(Onbekend, "rule panicked; skipped", [], "", "")
    case Some(res) => if IsValid(res.score) then res else res.(score := Onbekend)
  }

  /** ReasonInfo panics on any other code, and nothing above recovers that panic. */
  predicate Registered(r: Rule) {
    var reason := Matched(r).reason;
    reason == "" || reason in STRUCTURAL_REASONS || reason in GAP_REASONS
  }

  predicate Structural(r: Rule) {
    Matched(r).reason in STRUCTURAL_REASONS
  }

  /** Counts towards the score. A gap reason does not prevent it. */
  predicate Evidenced(r: Rule) {
    !Structural(r) && Matched(r).evidence != []
  }

  predicate Missing(r: Rule) {
    !Structural(r) && Matched(r).evidence == []
  }

  const NO_EVIDENCE := "no evidence — rule did not match"

  /**
   * The line a rule leaves in the rationale: onbekend for a reason or without evidence, and advice unless soeverein.
   */
  function Line(r: Rule): (line: Rationale)
    ensures line.rule == r.id && line.evidence == Matched(r).evidence && line.reason == Matched(r).reason
    ensures line.score == if line.reason != "" || line.evidence == [] then Onbekend else Matched(r).score
    ensures line.handeling != "" ==> line.score != Soeverein && !Structural(r)
  {
    var res := Matched(r);
    if Structural(r) then Rationale(r.id, res.verdict, Onbekend, res.evidence, res.reason, "")
    else if res.evidence == [] then
      Rationale(r.id, if res.verdict == "" then NO_EVIDENCE else res.verdict, Onbekend, [], res.reason, res.handeling)
    else
      var score := if res.reason != "" then Onbekend else res.score;
      Rationale(r.id, res.verdict, score, res.evidence, res.reason, if score != Soeverein then res.handeling else "")
  }

  /** score is the lowest among rs' evidence-backed results, or onbekend without any. */
  predicate IsWorst(score: Score, rs: seq<Rule>) {
    && (forall r :: r in rs && Evidenced(r) ==> Rank(score) <= Rank(Matched(r).score))
    && (if exists r :: r in rs && Evidenced(r) then exists r :: r in rs && Evidenced(r) && score == Matched(r).score
        else score == Onbekend)
  }

  predicate IsComplete(c: Completeness, rs: seq<Rule>) {
    c == if forall r :: r in rs ==> !Evidenced(r) then Incomplete
         else if exists r :: r in rs && Missing(r) then Partial
         else Complete
  }

  /** What a dimension's verdict says of its rules, whatever their order. */
  predicate Verdict(d: DimensionScore, rs: seq<Rule>) {
    && IsWorst(d.score, rs) && IsComplete(d.completeness, rs)
    && (d.notApplicable <==> rs != [] && forall r :: r in rs ==> Structural(r))
  }

  function Lines(rs: seq<Rule>): seq<Rationale> {
    Map((r: Rule) => Line(r), rs)
  }

  /** The loop's counters over the rules taken so far. */
  predicate Counted(rs: seq<Rule>, evidenced: nat, total: nat, structural: nat) {
    && evidenced <= total && structural + total == |rs|
    && (evidenced == 0 <==> forall r :: r in rs ==> !Evidenced(r))
    && (evidenced == total <==> forall r :: r in rs ==> !Missing(r))
    && (total == 0 <==> forall r :: r in rs ==> Structural(r))
  }

  lemma CountOneMore(rs: seq<Rule>, r: Rule, e: nat, t: nat, s: nat)
    requires Counted(rs, e, t, s)
    ensures Structural(r) ==> Counted(rs + [r], e, t, s + 1)
    ensures Missing(r) ==> Counted(rs + [r], e, t + 1, s)
    ensures Evidenced(r) ==> Counted(rs + [r], e + 1, t + 1, s)
  {
    assert r in rs + [r] && forall x :: x in rs + [r] <==> x in rs || x == r;
  }

  lemma WorstOneMore(rs: seq<Rule>, r: Rule, worst: Score)
    requires IsWorst(worst, rs)
    ensures !Evidenced(r) ==> IsWorst(worst, rs + [r])
    ensures Evidenced(r) && (forall x :: x in rs ==> !Evidenced(x)) ==> IsWorst(Matched(r).score, rs + [r])
    ensures Evidenced(r) && (exists x :: x in rs && Evidenced(x)) ==>
              IsWorst(if Rank(Matched(r).score) < Rank(worst) then Matched(r).score else worst, rs + [r])
  {
    assert r in rs + [r] && forall x :: x in rs + [r] <==> x in rs || x == r;
  }

  /** The loop's whole state after rs. */
  predicate Folded(rs: seq<Rule>, e: nat, t: nat, s: nat, worst: Score) {
    && Counted(rs, e, t, s)
    && (if e == 0 then worst == BLANK else worst != BLANK && IsWorst(worst, rs))
  }

  lemma FoldOne(rs: seq<Rule>, r: Rule, e: nat, t: nat, s: nat, worst: Score)
    requires Folded(rs, e, t, s, worst)
    ensures Matched(r).reason in STRUCTURAL_REASONS ==> Folded(rs + [r], e, t, s + 1, worst)
    ensures Matched(r).reason !in STRUCTURAL_REASONS && Matched(r).evidence == [] ==>
            Folded(rs + [r], e, t + 1, s, worst)
    ensures Matched(r).reason !in STRUCTURAL_REASONS && Matched(r).evidence != [] ==>
              Folded(rs + [r], e + 1, t + 1, s,
                     if worst == BLANK || Rank(Matched(r).score) < Rank(worst) then Matched(r).score else worst)
  {
    CountOneMore(rs, r, e, t, s);
    if e > 0 {
      WorstOneMore(rs, r, worst);
    } else if Evidenced(r) {
      assert r in rs + [r] && forall x :: x in rs + [r] <==> x in rs || x == r;
    }
  }

  lemma FoldNone()
    ensures Folded([], 0, 0, 0, BLANK)
  {
  }

  lemma FoldDone(d: DimensionScore, rs: seq<Rule>, e: nat, t: nat, s: nat, worst: Score)
    requires Folded(rs, e, t, s, worst) && rs != []
    requires d.notApplicable == (s == |rs|)
    requires d.score == if e == 0 then Onbekend else worst
    requires d.completeness == if e == 0 then Incomplete else if e == t then Complete else Partial
    ensures Verdict(d, rs)
  {
  }

  /** None when a rule panics past safeMatch, by an unregistered reason code. */
  method ScoreDimension(dim: string, rules: seq<Rule>) returns (out: Option<DimensionScore>)
    ensures out.None? <==> exists r :: r in rules && !Registered(r)
    ensures out.Some? ==> out.value.dimension == dim && Verdict(out.value, rules) && out.value.rationale == Lines(rules)
  {
    hide Folded, Matched;
    var ds := DimensionScore(dim, Onbekend, Incomplete, [], false);
    if |rules| == 0 {
      return Some(ds);
    }
    var evidenced, total, structural := 0, 0, 0;
    var worst := BLANK;
    FoldNone();
    for i := 0 to |rules|
      invariant forall r :: r in rules[..i] ==> Registered(r)
      invariant ds == DimensionScore(dim, Onbekend, Incomplete, Lines(rules[..i]), false)
      invariant Folded(rules[..i], evidenced, total, structural, worst)
    {
      var r := rules[i];
      PrefixStep(rules, i);
      FoldOne(rules[..i], r, evidenced, total, structural, worst);
      var res := Matched(r);
      if res.reason != "" && res.reason !in STRUCTURAL_REASONS && res.reason !in GAP_REASONS {
        assert r in rules && !Registered(r);
        return None;
      }
      var rat :=
        Rationale(r.id, res.verdict, if res.reason != "" then Onbekend else res.score, res.evidence, res.reason, "");
      if res.reason in STRUCTURAL_REASONS {
        structural := structural + 1;
        ds := ds.(rationale := ds.rationale + [rat]);
        continue;
      }
      total := total + 1;
      if |res.evidence| == 0 {
        rat := rat.(score := Onbekend, handeling := res.handeling);
        if rat.verdict == "" {
          rat := rat.(verdict := NO_EVIDENCE);
        }
        ds := ds.(rationale := ds.rationale + [rat]);
        continue;
      }
      evidenced := evidenced + 1;
      if worst == BLANK || Rank(res.score) < Rank(worst) {
        worst := res.score;
      }
      if rat.score != Soeverein {
        rat := rat.(handeling := res.handeling);
      }
      ds := ds.(rationale := ds.rationale + [rat]);
    }
    assert rules[..|rules|] == rules;
    ds := ds.(notApplicable := structural == |rules|);
    if evidenced > 0 {
      ds := ds.(score := worst, completeness := if evidenced == total then Complete else Partial);
    }
    FoldDone(ds, rules, evidenced, total, structural, worst);
    return Some(ds);
  }

  // ----- Laws -----

  predicate SameVerdict(d: DimensionScore, e: DimensionScore) {
    d.score == e.score && d.completeness == e.completeness
  }

  lemma WorstIsUnique(a: Score, b: Score, rs: seq<Rule>)
    requires IsWorst(a, rs) && IsWorst(b, rs)
    ensures a == b
  {
    if r :| r in rs && Evidenced(r) {
      var x :| x in rs && Evidenced(x) && a == Matched(x).score;
      var y :| y in rs && Evidenced(y) && b == Matched(y).score;
      assert Rank(a) <= Rank(b) <= Rank(a);
    }
  }

  /** Neither the order of the rules nor a repeated rule shows in the verdict. */
  lemma OrderIndependent(d: DimensionScore, rs: seq<Rule>, e: DimensionScore, qs: seq<Rule>)
    requires Verdict(d, rs) && Verdict(e, qs) && forall r :: r in rs <==> r in qs
    ensures SameVerdict(d, e) && d.notApplicable == e.notApplicable
  {
    hide Matched, Structural, Evidenced, Missing;
    assert (rs == [] <==> qs == []) by {
      assert (rs != [] ==> rs[0] in qs) && (qs != [] ==> qs[0] in rs);
    }
    assert IsWorst(e.score, rs);
    WorstIsUnique(d.score, e.score, rs);
  }

  /** Rules that do not apply change neither score nor completeness. */
  lemma StructuralIsInvisible(d: DimensionScore, rs: seq<Rule>, e: DimensionScore, extra: seq<Rule>)
    requires Verdict(d, rs) && Verdict(e, rs + extra) && forall r :: r in extra ==> Structural(r)
    ensures SameVerdict(d, e)
  {
    assert forall r :: r in rs + extra <==> r in rs || r in extra;
    hide Matched, Structural;
    assert forall r :: r in rs + extra && (Evidenced(r) || Missing(r)) ==> r in rs;
    assert forall r :: r in rs ==> r in rs + extra;
    assert IsWorst(e.score, rs);
    WorstIsUnique(d.score, e.score, rs);
  }

  /** More evidence never raises the score of a dimension that has some. */
  lemma EvidenceNeverRaises(d: DimensionScore, rs: seq<Rule>, e: DimensionScore, extra: Rule)
    requires Verdict(d, rs) && Verdict(e, rs + [extra]) && Evidenced(extra)
    requires d.completeness != Incomplete
    ensures Rank(e.score) <= Rank(d.score) && Rank(e.score) <= Rank(Matched(extra).score)
    ensures e.score == d.score || e.score == Matched(extra).score
  {
    assert forall r :: r in rs + [extra] <==> r in rs || r == extra;
    var x :| x in rs && Evidenced(x) && d.score == Matched(x).score;
    assert x in rs + [extra] && extra in rs + [extra];
    var y :| y in rs + [extra] && Evidenced(y) && e.score == Matched(y).score;
    if y != extra {
      assert Rank(d.score) <= Rank(e.score);
    }
  }

  /** A result with a gap reason and evidence all the same. */
  predicate Gap(r: Rule) {
    Evidenced(r) && Matched(r).reason in GAP_REASONS
  }

  lemma EvidencedGap(r: Rule)
    requires r.outcome.Some? && r.outcome.value.evidence != [] && r.outcome.value.reason in GAP_REASONS
    ensures Gap(r)
  {
  }

  lemma EvidenceIsNotStructural(r: Rule)
    ensures Evidenced(r) ==> !Structural(r)
  {
  }

  /** An evidence-backed onbekend is the worst score there is. */
  lemma WorstIsOnbekend(d: DimensionScore, r: Rule, rs: seq<Rule>)
    requires r in rs && Evidenced(r) && Matched(r).score == Onbekend && Verdict(d, rs)
    ensures d.score == Onbekend && d.completeness != Incomplete && !d.notApplicable
  {
    hide Evidenced, Missing;
    EvidenceIsNotStructural(r);
    var x :| x in rs && Evidenced(x) && d.score == Matched(x).score;
    assert Rank(d.score) <= Rank(Matched(r).score);
    assert IsValid(Matched(x).score);
  }

  /** The same rule read as the source's comment reads it: a gap is a missing observation. */
  function AsMissing(r: Rule): Rule {
    if Gap(r) then r.(outcome := Some(Matched(r).(evidence := []))) else r
  }

  lemma AsMissingMeans(r: Rule)
    ensures Structural(AsMissing(r)) == Structural(r)
    ensures Evidenced(AsMissing(r)) <==> Evidenced(r) && !Gap(r)
    ensures Missing(AsMissing(r)) <==> Missing(r) || Gap(r)
    ensures Matched(AsMissing(r)).score == Matched(r).score
  {
    assert "" !in GAP_REASONS;
  }

  predicate Plain(r: Rule) {
    Evidenced(r) && !Gap(r)
  }

  /** Plain evidence that is as bad as any gap's own score. */
  predicate AsBadAsGaps(x: Rule, rs: seq<Rule>) {
    Plain(x) && forall g :: g in rs && Gap(g) ==> Rank(Matched(x).score) <= Rank(Matched(g).score)
  }

  /** There are no gaps, or something is missing anyway and some plain evidence is as bad. */
  predicate GapsDoNotShow(rs: seq<Rule>) {
    (forall g :: g in rs ==> !Gap(g)) ||
    ((exists m :: m in rs && Missing(m)) && exists x :: x in rs && AsBadAsGaps(x, rs))
  }

  /** The verdict the comment's reading gives, told of the rules as they are. */
  predicate PlainVerdict(e: DimensionScore, rs: seq<Rule>) {
    && (forall r :: r in rs && Plain(r) ==> Rank(e.score) <= Rank(Matched(r).score))
    && (if exists r :: r in rs && Plain(r) then exists r :: r in rs && Plain(r) && e.score == Matched(r).score
        else e.score == Onbekend)
    && e.completeness == if forall r :: r in rs ==> !Plain(r) then Incomplete
                         else if exists r :: r in rs && (Missing(r) || Gap(r)) then Partial
                         else Complete
  }

  lemma ReadAsMissing(e: DimensionScore, rs: seq<Rule>, qs: seq<Rule>)
    requires Verdict(e, qs) && qs == Map((r: Rule) => AsMissing(r), rs)
    ensures PlainVerdict(e, rs)
  {
    hide Matched, Structural, Missing, Evidenced, Gap, AsMissing;
    forall r | r in rs
      ensures AsMissing(r) in qs && (Evidenced(AsMissing(r)) <==> Plain(r))
              && (Missing(AsMissing(r)) <==> Missing(r) || Gap(r))
      ensures Matched(AsMissing(r)).score == Matched(r).score {
      var i :| 0 <= i < |rs| && rs[i] == r;
      assert qs[i] == AsMissing(r);
      AsMissingMeans(r);
    }
    forall q | q in qs ensures exists r :: r in rs && q == AsMissing(r) {
      var i :| 0 <= i < |qs| && qs[i] == q;
      assert rs[i] in rs;
    }
  }

  lemma GapIsEvidenced()
    ensures forall r :: Gap(r) || Plain(r) <==> Evidenced(r)
    ensures forall r :: Evidenced(r) ==> !Missing(r)
  {
  }

  lemma GapCases(d: DimensionScore, rs: seq<Rule>, e: DimensionScore)
    requires Verdict(d, rs) && PlainVerdict(e, rs)
    ensures SameVerdict(d, e) <==> GapsDoNotShow(rs)
  {
    GapIsEvidenced();
    hide Matched, Structural, Missing, Evidenced, Gap;
    if g :| g in rs && Gap(g) {
      if p :| p in rs && Plain(p) {
        var w :| w in rs && Plain(w) && e.score == Matched(w).score;
        if d.score == e.score {
          assert AsBadAsGaps(w, rs);
        }
        if x :| x in rs && AsBadAsGaps(x, rs) {
          assert IsWorst(e.score, rs);
          WorstIsUnique(d.score, e.score, rs);
        }
      }
    } else {
      assert IsWorst(e.score, rs);
      WorstIsUnique(d.score, e.score, rs);
    }
  }

  /** The comment's reading of gap reasons gives the code's verdict exactly when the gaps do not show. */
  lemma GapReading(d: DimensionScore, rs: seq<Rule>, e: DimensionScore)
    requires Verdict(d, rs) && Verdict(e, Map((r: Rule) => AsMissing(r), rs))
    ensures SameVerdict(d, e) <==> GapsDoNotShow(rs)
  {
    ReadAsMissing(e, rs, Map((r: Rule) => AsMissing(r), rs));
    GapCases(d, rs, e);
  }

  /** A sound rule beside a gap that carries evidence. */
  function SoundBesideGap(): seq<Rule> {
    [Rule("wand.a", "standards", Some(RuleResult(Soeverein, "", ["f1"], "", ""))),
     Rule("wand.b", "standards", Some(RuleResult(Onbekend, "", ["f2"], "not_measured", "")))]
  }

  lemma TwoRules() returns (sound: Rule, gap: Rule)
    ensures var rs := SoundBesideGap(); sound in rs && gap in rs && forall r :: r in rs ==> r == sound || r == gap
    ensures Plain(sound) && Matched(sound).score == Soeverein && !Missing(sound)
    ensures Gap(gap) && !Missing(gap) && Evidenced(gap) && Matched(gap).score == Onbekend
  {
    sound, gap := SoundBesideGap()[0], SoundBesideGap()[1];
    assert SoundBesideGap() == [sound, gap];
  }

  lemma PairVerdicts(d: DimensionScore, e: DimensionScore, rs: seq<Rule>, sound: Rule, gap: Rule)
    requires sound in rs && gap in rs && forall r :: r in rs ==> r == sound || r == gap
    requires Plain(sound) && Matched(sound).score == Soeverein && !Missing(sound) && Gap(gap) && !Missing(gap)
    requires IsComplete(d.completeness, rs) && PlainVerdict(e, rs)
    ensures d.completeness == Complete && e.score == Soeverein && e.completeness == Partial
  {
    hide Matched, Structural, Missing, Gap, Evidenced;
    assert Evidenced(sound);
    assert !Plain(gap);
  }

  /** There the code says onbekend and complete; the comment's reading, soeverein and partial. */
  lemma GapShows(d: DimensionScore, e: DimensionScore)
    requires Verdict(d, SoundBesideGap()) && Verdict(e, Map((r: Rule) => AsMissing(r), SoundBesideGap()))
    ensures d.score == Onbekend && d.completeness == Complete
    ensures e.score == Soeverein && e.completeness == Partial
  {
    hide SoundBesideGap, Matched, Structural, Evidenced, Missing, Gap, Plain, AsMissing, Map;
    hide IsWorst, IsComplete, PlainVerdict;
    var sound, gap := TwoRules();
    ReadAsMissing(e, SoundBesideGap(), Map((r: Rule) => AsMissing(r), SoundBesideGap()));
    WorstIsOnbekend(d, gap, SoundBesideGap());
    PairVerdicts(d, e, SoundBesideGap(), sound, gap);
  }

  // ----- Assess -----

  function InDim(dim: string): Rule -> bool {
    (r: Rule) => r.dimension == dim
  }

  /** Rule IDs in byte order. */
  function ByID(): (Rule, Rule) -> bool {
    (a: Rule, b: Rule) => Strings.Less(a.id, b.id)
  }

  lemma ByIDIsOrder()
    ensures StrictOrder(ByID())
  {
    forall a: Rule ensures !ByID()(a, a) {
      Strings.Irreflexive(a.id);
    }
    forall a: Rule, b: Rule, c: Rule | ByID()(a, b) && ByID()(b, c) ensures ByID()(a, c) {
      Strings.Transitive(a.id, b.id, c.id);
    }
  }

  /** A dimension's entry: the verdict of its rules, one line per rule by rule ID. */
  ghost predicate Assessed(d: DimensionScore, dim: string, rules: seq<Rule>) {
    && d.dimension == dim && Verdict(d, Filter(rules, InDim(dim)))
    && exists order :: && multiset(order) == multiset(Filter(rules, InDim(dim))) && SortedBy(order, ByID())
                       && d.rationale == Lines(order)
  }

  function GroupIn(byDim: map<string, seq<Rule>>, k: string): seq<Rule> {
    if k in byDim then byDim[k] else []
  }

  method GroupByDimension(rules: seq<Rule>) returns (byDim: map<string, seq<Rule>>)
    ensures forall k :: GroupIn(byDim, k) == Filter(rules, InDim(k))
  {
    byDim := map[];
    for i := 0 to |rules|
      invariant forall k :: GroupIn(byDim, k) == Filter(rules[..i], InDim(k))
    {
      var r := rules[i];
      PrefixStep(rules, i);
      forall k
        ensures Filter(rules[..i + 1], InDim(k)) == Filter(rules[..i], InDim(k)) + if r.dimension == k then [r] else []
      {
        FilterConcat(rules[..i], [r], InDim(k));
        assert Filter([r], InDim(k)) == if r.dimension == k then [r] else [];
      }
      byDim := byDim[r.dimension := GroupIn(byDim, r.dimension) + [r]];
    }
    assert rules[..|rules|] == rules;
  }

  lemma VerdictOfSet(d: DimensionScore, rs: seq<Rule>, qs: seq<Rule>)
    requires Verdict(d, rs) && forall r :: r in rs <==> r in qs
    ensures Verdict(d, qs)
  {
    hide Matched, Structural, Evidenced, Missing;
    assert (rs != [] ==> rs[0] in qs) && (qs != [] ==> qs[0] in rs);
  }

  method AssessDimension(dim: string, group: seq<Rule>, ghost rules: seq<Rule>) returns (d: Option<DimensionScore>)
    requires group == Filter(rules, InDim(dim))
    ensures d.None? <==> exists r :: r in rules && r.dimension == dim && !Registered(r)
    ensures d.Some? ==> Assessed(d.value, dim, rules)
  {
    hide Verdict, Registered, SortedBy;
    ByIDIsOrder();
    var order := SortBy(group, ByID());
    assert forall r :: r in order <==> r in multiset(group);
    forall r | r in rules && r.dimension == dim ensures r in group {
      FilterHas(rules, InDim(dim), r);
    }
    assert forall r :: r in group ==> r in rules && InDim(dim)(r);
    d := ScoreDimension(dim, order);
    if d.Some? {
      VerdictOfSet(d.value, order, group);
    }
  }

  /** One entry per dimension, in the given order; None when a rule of one of them panics past safeMatch. */
  method Assess(rules: seq<Rule>, dims: seq<string> := WAND_DIMENSIONS) returns (out: Option<seq<DimensionScore>>)
    ensures out.None? <==> exists r :: r in rules && r.dimension in dims && !Registered(r)
    ensures out.Some? ==>
            |out.value| == |dims| && forall i :: 0 <= i < |dims| ==> Assessed(out.value[i], dims[i], rules)
  {
    hide Assessed, Registered;
    var byDim := GroupByDimension(rules);
    var ds: seq<DimensionScore> := [];
    for i := 0 to |dims|
      invariant |ds| == i && forall j :: 0 <= j < i ==> Assessed(ds[j], dims[j], rules)
      invariant forall r :: r in rules && r.dimension in dims[..i] ==> Registered(r)
    {
      var d := AssessDimension(dims[i], GroupIn(byDim, dims[i]), rules);
      if d.None? {
        return None;
      }
      ds := ds + [d.value];
    }
    return Some(ds);
  }
}
