/**
 * What the scores mean, told of single results, flows and dimensions (internal/assessor/engine.go,
 * internal/ui/aggregate.go, internal/ui/flows.go, internal/ui/fleet_score.go, internal/ui/answer.go).
 */
module ScoreMeanings {
  import opened Sequences
  import opened Assessments
  import Strings
  import RuleFold
  import Flows
  import Fleet
  import A = Aggregate

  /** The four scores, from bad to good. */
  predicate WorstOf(score: Score, has: Score -> bool) {
    score ==
    if has(Afhankelijk) then Afhankelijk
    else if has(Voldoende) then Voldoende
    else if has(Soeverein) then Soeverein
    else Onbekend
  }

  // ----- A dimension -----

  /** A rule with result score and evidence for it, and no reason why it would not apply. */
  predicate Scores(r: RuleFold.Rule, score: Score) {
    && r.outcome.Some? && r.outcome.value.evidence != []
    && r.outcome.value.reason !in {"registry_redacted", "not_published_by_registry", "scanner_no_ipv6"}
    && (r.outcome.value.score == score || (score == Onbekend && r.outcome.value.score.Other?))
  }

  function SomeScores(rs: seq<RuleFold.Rule>): Score -> bool {
    (score: Score) => exists r :: r in rs && Scores(r, score)
  }

  lemma EvidencedScores(r: RuleFold.Rule)
    ensures forall score: Score :: IsValid(score) ==>
              (Scores(r, score) <==> RuleFold.Evidenced(r) && RuleFold.Matched(r).score == score)
  {
  }

  lemma NoneScores(d: DimensionScore, rs: seq<RuleFold.Rule>)
    requires RuleFold.IsWorst(d.score, rs) && forall r :: r in rs ==> !RuleFold.Evidenced(r)
    ensures d.score == Onbekend && forall score: Score :: IsValid(score) ==> !SomeScores(rs)(score)
  {
    hide RuleFold.Evidenced, RuleFold.Matched, Scores;
    forall r ensures forall score: Score :: IsValid(score) ==>
                       (Scores(r, score) <==> RuleFold.Evidenced(r) && RuleFold.Matched(r).score == score) {
      EvidencedScores(r);
    }
  }

  lemma WorstScores(d: DimensionScore, rs: seq<RuleFold.Rule>) returns (w: RuleFold.Rule)
    requires RuleFold.IsWorst(d.score, rs) && exists r :: r in rs && RuleFold.Evidenced(r)
    ensures w in rs && Scores(w, d.score) && IsValid(d.score)
    ensures forall r, score: Score :: r in rs && IsValid(score) && Scores(r, score) ==> Rank(d.score) <= Rank(score)
  {
    hide RuleFold.Evidenced, RuleFold.Matched, Scores;
    forall r ensures forall score: Score :: IsValid(score) ==>
                       (Scores(r, score) <==> RuleFold.Evidenced(r) && RuleFold.Matched(r).score == score) {
      EvidencedScores(r);
    }
    w :| w in rs && RuleFold.Evidenced(w) && d.score == RuleFold.Matched(w).score;
    assert IsValid(RuleFold.Matched(w).score);
  }

  /** The dimension's score is onbekend if some rule with evidence says so, and else the worst that one says. */
  lemma DimensionMeans(d: DimensionScore, rs: seq<RuleFold.Rule>)
    requires RuleFold.Verdict(d, rs)
    ensures if SomeScores(rs)(Onbekend) then d.score == Onbekend else WorstOf(d.score, SomeScores(rs))
  {
    assert RuleFold.IsWorst(d.score, rs);
    hide RuleFold.Evidenced, RuleFold.Verdict, RuleFold.IsWorst, Scores;
    if exists r :: r in rs && RuleFold.Evidenced(r) {
      var w := WorstScores(d, rs);
      assert SomeScores(rs)(d.score);
    } else {
      NoneScores(d, rs);
    }
  }

  /** A rule that panicked, or found nothing and gives no reason why it would not apply. */
  predicate LacksEvidence(r: RuleFold.Rule) {
    match r.outcome
    case None => true
    case Some(res) =>
      && res.evidence == []
      && res.reason !in {"registry_redacted", "not_published_by_registry", "scanner_no_ipv6"}
  }

  lemma EvidenceIsScored(r: RuleFold.Rule)
    ensures RuleFold.Evidenced(r) <==> exists score :: Scores(r, score)
    ensures RuleFold.Missing(r) <==> LacksEvidence(r)
  {
    if RuleFold.Evidenced(r) {
      assert Scores(r, if r.outcome.value.score.Other? then Onbekend else r.outcome.value.score);
    }
  }

  /** How much a dimension saw: nothing with evidence, something missing beside it, or all of it. */
  lemma CompletenessMeans(d: DimensionScore, rs: seq<RuleFold.Rule>)
    requires RuleFold.Verdict(d, rs)
    ensures var evidence := exists r, score :: r in rs && Scores(r, score);
            var missing := exists r :: r in rs && LacksEvidence(r);
            d.completeness == if !evidence then Incomplete else if missing then Partial else Complete
  {
    forall r ensures (RuleFold.Evidenced(r) <==> exists score :: Scores(r, score))
                     && (RuleFold.Missing(r) <==> LacksEvidence(r)) {
      EvidenceIsScored(r);
    }
    hide RuleFold.Evidenced, RuleFold.Matched, RuleFold.Missing, RuleFold.Structural, Scores, LacksEvidence,
      RuleFold.IsWorst;
  }

  /** A reason why a rule would not apply. */
  predicate IsStructural(reason: string) {
    reason in {"registry_redacted", "not_published_by_registry", "scanner_no_ipv6"}
  }

  /** Which reasons a rule may give without a panic. */
  lemma RegisteredMeans(r: RuleFold.Rule)
    ensures RuleFold.Registered(r) <==>
            || r.outcome.None? || r.outcome.value.reason == "" || IsStructural(r.outcome.value.reason)
            || r.outcome.value.reason in
                 {"probe_unavailable", "scanner_unreadable_output", "not_measured", "measurement_stale"}
  {
  }

  /** A dimension is not applicable when it has rules and all of them give such a reason. */
  lemma ApplicableMeans(d: DimensionScore, rs: seq<RuleFold.Rule>)
    requires RuleFold.Verdict(d, rs)
    ensures d.notApplicable <==>
            rs != [] && forall r :: r in rs ==> r.outcome.Some? && IsStructural(r.outcome.value.reason)
  {
    forall r ensures RuleFold.Structural(r) <==> r.outcome.Some? && IsStructural(r.outcome.value.reason) {
    }
    hide RuleFold.Structural, RuleFold.IsWorst, RuleFold.IsComplete;
  }

  /** The line of a rule that returned: its own words and evidence, and its score and advice only where they count. */
  lemma LineMeans(r: RuleFold.Rule, res: RuleFold.RuleResult)
    requires r.outcome == Some(res)
    ensures var line := RuleFold.Line(r);
            && line.rule == r.id && line.evidence == res.evidence && line.reason == res.reason
            && line.verdict == (if res.verdict == "" && res.evidence == [] && !IsStructural(res.reason)
                                then "no evidence — rule did not match" else res.verdict)
            && line.score == (if res.reason != "" || res.evidence == []
              || res.score.Other? then Onbekend else res.score)
            && line.handeling == (if IsStructural(res.reason) || line.score == Soeverein then "" else res.handeling)
  {
  }

  /** A rule that panicked is shown as such. */
  lemma PanickedLine(r: RuleFold.Rule)
    requires r.outcome == None
    ensures RuleFold.Line(r) == Rationale(r.id, "rule panicked; skipped", Onbekend, [], "", "")
  {
  }

  // ----- A target -----

  function SomeDimension(ds: seq<DimensionScore>): Score -> bool {
    (score: Score) => exists d :: d in ds && d.score == score
  }

  /** The worst dimension: onbekend ones do not count unless there is nothing else. */
  lemma TargetMeans(ds: seq<DimensionScore>)
    ensures WorstOf(A.Worst(ds), SomeDimension(ds))
  {
    assert A.IsWorst(A.Worst(ds), ds);
  }

  // ----- A domain's flows -----

  function HasScore(score: Score): Flows.Flow -> bool {
    (f: Flows.Flow) => f.score == score
  }

  function IsAnswered(): Flows.Flow -> bool {
    (f: Flows.Flow) => f.score != Afhankelijk && f.score != Onbekend
  }

  lemma {:induction false} KindCounts(fs: seq<Flows.Flow>)
    ensures Fleet.Of(fs, Fleet.Inside) + Fleet.Of(fs, Fleet.Blank) == Count(fs, IsAnswered())
    ensures Fleet.Of(fs, Fleet.Outside) == Count(fs, HasScore(Afhankelijk))
    ensures Fleet.Of(fs, Fleet.Unknown) == Count(fs, HasScore(Onbekend))
  {
    if fs != [] {
      KindCounts(fs[1..]);
    }
  }

  /** x flows passed of n that were answered, the rest was not; and the first flow outside the EEA is named. */
  lemma FleetScoreMeans(fs: seq<Flows.Flow>)
    ensures var s := Fleet.FleetScoreOf(fs);
            && s.x == Count(fs, IsAnswered())
            && s.n == Count(fs, IsAnswered()) + Count(fs, HasScore(Afhankelijk))
            && s.unanswered == Count(fs, HasScore(Onbekend))
            && s.worstFlow == (if Filter(fs, HasScore(Afhankelijk)) == [] then ""
                               else Filter(fs, HasScore(Afhankelijk))[0].title)
  {
    KindCounts(fs);
    Fleet.KindsPartition(fs);
    FilterAgree(fs, HasScore(Afhankelijk), Fleet.Is(Fleet.Outside));
  }

  /** The fleet's totals are those of all scored domains' flows together. */
  lemma SummaryMeans(s: Fleet.Summary, ds: seq<seq<Flows.Flow>>, all: nat)
    requires Fleet.Sums(s, ds, all)
    ensures s.x == Count(Flatten(ds), IsAnswered())
    ensures s.n == Count(Flatten(ds), IsAnswered()) + Count(Flatten(ds), HasScore(Afhankelijk))
    ensures s.unanswered == Count(Flatten(ds), HasScore(Onbekend))
    ensures s.notSovereign == Count(ds, (fs: seq<Flows.Flow>) => exists f :: f in fs && f.score == Afhankelijk)
    ensures s.domainsWithoutScan + |ds| == all
  {
    KindCounts(Flatten(ds));
    var open := (fs: seq<Flows.Flow>) => exists f :: f in fs && f.score == Afhankelijk;
    hide Flatten;
    CountAgree(ds, open, Fleet.IsOpen());
  }

  // ----- The fleet -----

  /** Each snapshot with the order in which its assessments are visited. */
  function Zip(snaps: seq<Fleet.Snapshot>, orders: seq<seq<Assessment>>): (r: seq<(Fleet.Snapshot, seq<Assessment>)>)
    requires |orders| == |snaps|
    ensures |r| == |snaps| && forall i :: 0 <= i < |r| ==> r[i] == (snaps[i], orders[i])
  {
    seq(|snaps|, i requires 0 <= i < |snaps| => (snaps[i], orders[i]))
  }

  function HasCompleted(): ((Fleet.Snapshot, seq<Assessment>)) -> bool {
    (p: (Fleet.Snapshot, seq<Assessment>)) => p.0.status.ScanComplete? || p.0.status.ScanPartial?
  }

  function IsUnscanned(): Fleet.Snapshot -> bool {
    (s: Fleet.Snapshot) => !s.status.ScanComplete? && !s.status.ScanPartial?
  }

  lemma {:induction false} CompletedMeans(snaps: seq<Fleet.Snapshot>, orders: seq<seq<Assessment>>)
    requires |orders| == |snaps|
    ensures Fleet.Completed(snaps, orders) ==
            Map((p: (Fleet.Snapshot, seq<Assessment>)) => p.1, Filter(Zip(snaps, orders), HasCompleted()))
    ensures |Fleet.Completed(snaps, orders)| + Count(snaps, IsUnscanned()) == |snaps|
    decreases |snaps|
  {
    if snaps != [] {
      CompletedMeans(snaps[1..], orders[1..]);
      assert Zip(snaps, orders)[1..] == Zip(snaps[1..], orders[1..]);
      MapConcat((p: (Fleet.Snapshot, seq<Assessment>)) => p.1,
                if HasCompleted()((snaps[0], orders[0])) then [(snaps[0], orders[0])] else [],
                Filter(Zip(snaps[1..], orders[1..]), HasCompleted()));
    }
  }

  lemma {:induction false} EachFlows(xss: seq<seq<Assessment>>)
    ensures Fleet.FlowsOfEach(xss) == Map((xs: seq<Assessment>) => Flows.FlowsOf(xs), xss)
  {
    hide Flows.FlowsOf;
    if xss != [] {
      EachFlows(xss[1..]);
    }
  }

  /**
   * The domains summed are exactly those whose latest scan completed, wholly or partly; the others are counted apart.
   */
  lemma ScoredMeans(snaps: seq<Fleet.Snapshot>, orders: seq<seq<Assessment>>, s: Fleet.Summary)
    requires |orders| == |snaps| && Fleet.Sums(s, Fleet.Scored(snaps, orders), |snaps|)
    ensures Fleet.Scored(snaps, orders) ==
            Map((p: (Fleet.Snapshot, seq<Assessment>)) => Flows.FlowsOf(p.1),
              Filter(Zip(snaps, orders), HasCompleted()))
    ensures s.domainsWithoutScan == Count(snaps, IsUnscanned())
  {
    CompletedMeans(snaps, orders);
    EachFlows(Fleet.Completed(snaps, orders));
    hide Flows.FlowsOf, Fleet.Completed, Fleet.FlowsOfEach, Filter, Zip, Flatten;
  }

  function TitledScore(t: string, score: Score): Flows.Flow -> bool {
    (f: Flows.Flow) => f.title == t && f.score == score
  }

  function Titled(t: string): Flows.Flow -> bool {
    (f: Flows.Flow) => f.title == t
  }

  function SomeTitled(fs: seq<Flows.Flow>, t: string): Score -> bool {
    (score: Score) => Flows.Flow(t, score) in fs
  }

  function One(b: bool): nat {
    if b then 1 else 0
  }

  lemma TitleCount(f: Flows.Flow, t: string)
    ensures Fleet.IsAt(t, Fleet.Outside)(f) == TitledScore(t, Afhankelijk)(f)
    ensures One(Fleet.IsAt(t, Fleet.Unknown)(f)) + One(Fleet.IsAt(t, Fleet.Blank)(f)) ==
            One(TitledScore(t, Onbekend)(f)) + One(TitledScore(t, BLANK)(f))
    ensures One(Fleet.IsAt(t, Fleet.Outside)(f)) + One(Fleet.IsAt(t, Fleet.Unknown)(f))
            + One(Fleet.IsAt(t, Fleet.Blank)(f)) + One(Fleet.IsAt(t, Fleet.Inside)(f)) == One(Titled(t)(f))
  {
  }

  lemma CountFirst(fs: seq<Flows.Flow>, p: Flows.Flow -> bool)
    requires fs != []
    ensures Count(fs, p) == One(p(fs[0])) + Count(fs[1..], p)
  {
  }

  lemma {:induction false} TitleCounts(fs: seq<Flows.Flow>, t: string)
    ensures Fleet.At(fs, t, Fleet.Outside) == Count(fs, TitledScore(t, Afhankelijk))
    ensures Fleet.At(fs, t, Fleet.Unknown) + Fleet.At(fs, t, Fleet.Blank) ==
            Count(fs, TitledScore(t, Onbekend)) + Count(fs, TitledScore(t, BLANK))
    ensures Fleet.At(fs, t, Fleet.Outside) + Fleet.At(fs, t, Fleet.Unknown) + Fleet.At(fs, t, Fleet.Blank)
            + Fleet.At(fs, t, Fleet.Inside) == Count(fs, Titled(t))
  {
    if fs != [] {
      TitleCount(fs[0], t);
      hide Count, One, TitledScore, Titled, Fleet.IsAt;
      forall p: Flows.Flow -> bool ensures Count(fs, p) == One(p(fs[0])) + Count(fs[1..], p) {
        CountFirst(fs, p);
      }
      TitleCounts(fs[1..], t);
    }
  }

  /** A row counts its title's flows by score, and shows the worst of them. */
  lemma RowMeans(r: Fleet.Row, fs: seq<Flows.Flow>, t: string)
    requires Fleet.IsRow(r, fs, t)
    ensures r.title == t && r.total == Count(fs, Titled(t)) && r.afhankelijk == Count(fs, TitledScore(t, Afhankelijk))
    ensures r.onbekend == Count(fs, TitledScore(t, Onbekend)) + Count(fs, TitledScore(t, BLANK))
    ensures r.worst == Afhankelijk || r.worst == Voldoende || r.worst == Soeverein ==>
            WorstOf(r.worst, SomeTitled(fs, t))
    ensures SomeTitled(fs, t)(Afhankelijk) || SomeTitled(fs, t)(Voldoende) || SomeTitled(fs, t)(Soeverein) ==>
              WorstOf(r.worst, SomeTitled(fs, t))
  {
    TitleCounts(fs, t);
    hide Fleet.At, Count;
    forall score | Flows.Flow(t, score) in fs ensures Fleet.Severity(score) <= Fleet.Severity(r.worst) {
    }
  }

  // ----- Frameworks and concerns -----

  function Assessed(fw: string): A.Target -> bool {
    (t: A.Target) => fw in t.assessments
  }

  ghost function AtScore(fw: string, score: Score): A.Target -> bool {
    (t: A.Target) => fw in t.assessments && A.Worst(t.assessments[fw].dimensions) == score
  }

  ghost function SomeTarget(ts: seq<A.Target>, fw: string): Score -> bool {
    (score: Score) => exists t :: t in ts && AtScore(fw, score)(t)
  }

  lemma ScoresFirst(ts: seq<A.Target>, fw: string)
    requires ts != []
    ensures A.ScoresOf(ts, fw) ==
            (if fw in ts[0].assessments then [A.Worst(ts[0].assessments[fw].dimensions)] else []) +
              A.ScoresOf(ts[1..], fw)
  {
  }

  lemma {:induction false} ScoresMean(ts: seq<A.Target>, fw: string)
    ensures |A.ScoresOf(ts, fw)| == Count(ts, Assessed(fw))
    ensures forall score :: Count(A.ScoresOf(ts, fw), A.At(score)) == Count(ts, AtScore(fw, score))
    ensures forall score :: score in A.ScoresOf(ts, fw) <==> SomeTarget(ts, fw)(score)
  {
    if ts != [] {
      ScoresMean(ts[1..], fw);
      var head := if fw in ts[0].assessments then [A.Worst(ts[0].assessments[fw].dimensions)] else [];
      var rest := A.ScoresOf(ts[1..], fw);
      assert ts == [ts[0]] + ts[1..];
      hide A.ScoresOf, A.Worst;
      assert A.ScoresOf(ts, fw) == head + rest by { ScoresFirst(ts, fw); }
      forall score ensures Count(head + rest, A.At(score)) == Count(ts, AtScore(fw, score)) {
        CountConcat(head, rest, A.At(score));
        assert head != [] ==> head[1..] == [];
      }
      forall score ensures score in head + rest <==> SomeTarget(ts, fw)(score) {
        assert AtScore(fw, score)(ts[0]) <==> score in head;
      }
    }
  }

  /** A framework's verdict is the worst of its targets', with how many have it and how many were assessed. */
  lemma FrameworkMeans(v: A.FrameworkVerdict, ts: seq<A.Target>)
    requires A.IsVerdict(v, ts)
    ensures v.totalAssessed == Count(ts, Assessed(v.framework))
    ensures v.targetsAtWorst == Count(ts, AtScore(v.framework, v.score))
    ensures WorstOf(v.score, SomeTarget(ts, v.framework))
  {
    ScoresMean(ts, v.framework);
    hide A.ScoresOf, AtScore, Assessed;
  }

  /** Target t has a line of a rule with this topic, afhankelijk if fails. */
  predicate HasLine(t: A.Target, topic: string, fails: bool) {
    exists fw, r :: fw in t.assessments && r in Flows.Entries(t.assessments[fw].dimensions)
                    && A.Topic(A.Ref(fw, r.rule)) == topic && (fails ==> r.score == Afhankelijk)
  }

  lemma EntriesMean(ts: seq<A.Target>, e: A.Entry)
    ensures e in A.AllEntries(ts) <==>
            exists t, fw, r :: t in ts && fw in t.assessments && r in Flows.Entries(t.assessments[fw].dimensions)
                               && e == A.EntryOf(t.id, fw, r)
  {
    hide Flows.Entries;
    if e in A.AllEntries(ts) {
      var t :| t in ts && e in A.EntriesUnder(t, t.assessments.Keys);
      var fw :| fw in t.assessments && e in A.EntriesOf(t.id, fw, Flows.Entries(t.assessments[fw].dimensions));
    }
    if t, fw, r :| t in ts && fw in t.assessments && r in Flows.Entries(t.assessments[fw].dimensions)
                   && e == A.EntryOf(t.id, fw, r) {
      assert e in A.EntriesOf(t.id, fw, Flows.Entries(t.assessments[fw].dimensions));
      assert e in A.EntriesUnder(t, t.assessments.Keys);
    }
  }

  lemma LineIsEntry(ts: seq<A.Target>, t: A.Target, topic: string, fails: bool) returns (e: A.Entry)
    requires t in ts && HasLine(t, topic, fails)
    ensures e in A.AllEntries(ts) && A.Topic(e.ref) == topic && (fails ==> e.afhankelijk) && e.target == t.id
  {
    hide A.AllEntries, A.Topic, Flows.Entries;
    var fw, r :| fw in t.assessments && r in Flows.Entries(t.assessments[fw].dimensions)
                 && A.Topic(A.Ref(fw, r.rule)) == topic && (fails ==> r.score == Afhankelijk);
    e := A.EntryOf(t.id, fw, r);
    EntriesMean(ts, e);
  }

  lemma EntryIsLine(ts: seq<A.Target>, e: A.Entry) returns (t: A.Target)
    requires e in A.AllEntries(ts)
    ensures t in ts && t.id == e.target && HasLine(t, A.Topic(e.ref), e.afhankelijk)
    ensures HasLine(t, A.Topic(e.ref), false)
  {
    hide A.AllEntries, A.Topic, Flows.Entries;
    EntriesMean(ts, e);
    var u, fw, r :| u in ts && fw in u.assessments && r in Flows.Entries(u.assessments[fw].dimensions)
                    && e == A.EntryOf(u.id, fw, r);
    t := u;
    assert A.Topic(A.Ref(fw, r.rule)) == A.Topic(e.ref);
  }

  /** A concern counts the targets with a failing line about it, out of those with any line about it. */
  lemma ConcernMeans(row: A.ConcernRow, ts: seq<A.Target>)
    requires A.IsRow(row, A.AllEntries(ts))
    ensures row.targetCount == |set t | t in ts && HasLine(t, row.topic, true) :: t.id|
    ensures row.total == |set t | t in ts && HasLine(t, row.topic, false) :: t.id|
  {
    var es, k := A.AllEntries(ts), row.topic;
    var failing, evaluated := set t | t in ts && HasLine(t, k, true) :: t.id, set t | t in ts
      && HasLine(t, k, false) :: t.id;
    hide A.AllEntries, A.Topic, HasLine;
    forall id ensures id in A.Failing(es, k) <==> id in failing {
      if id in A.Failing(es, k) {
        var e :| e in es && A.Topic(e.ref) == k && e.afhankelijk && e.target == id;
        var t := EntryIsLine(ts, e);
      }
      if t :| t in ts && HasLine(t, k, true) && t.id == id {
        var e := LineIsEntry(ts, t, k, true);
      }
    }
    forall id ensures id in A.Evaluated(es, k) <==> id in evaluated {
      if id in A.Evaluated(es, k) {
        var e :| e in es && A.Topic(e.ref) == k && e.target == id;
        var t := EntryIsLine(ts, e);
      }
      if t :| t in ts && HasLine(t, k, false) && t.id == id {
        var e := LineIsEntry(ts, t, k, false);
      }
    }
    assert A.Failing(es, k) == failing && A.Evaluated(es, k) == evaluated;
  }
}
