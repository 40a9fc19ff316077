/** The verdict of one Internet.nl test category (internal/assessor/wand/standards_rules.go). */
module Standards {
  import opened Sequences
  import opened Assessments
  import opened Findings
  import RuleFold

  /** What the call fixes: the category's names, how RFC 3339 times parse, the age limit and the clock. */
  datatype Context = Context(categories: set<string>, parse: string -> Option<int>, maxAge: int, now: int)

  datatype Class = Irrelevant | Stale | Passed | Failed | Warned | NotTested | Errored

  const PREFIX := "internetnl."

  function StatusClass(status: string): Class {
    if status == "passed" then Passed
    else if status == "failed" then Failed
    else if status == "warning" || status == "info" then Warned
    else if status == "error" then Errored
    else NotTested
  }

  /** A time that does not parse is never stale. */
  predicate IsStale(f: Finding, ctx: Context) {
    var at := ctx.parse(TextAttr(f, "measured_at"));
    at.Some? && ctx.now - at.value > ctx.maxAge
  }

  function ClassOf(f: Finding, ctx: Context): Class {
    if !(PREFIX <= f.probe) || TextAttr(f, "category") !in ctx.categories then Irrelevant
    else if IsStale(f, ctx) then Stale
    else StatusClass(TextAttr(f, "status"))
  }

  function Is(c: Class, ctx: Context): Finding -> bool {
    (f: Finding) => ClassOf(f, ctx) == c
  }

  function N(fs: seq<Finding>, c: Class, ctx: Context): nat {
    Count(fs, Is(c, ctx))
  }

  predicate Measured(c: Class) {
    c == Passed || c == Failed || c == Warned
  }

  function MeasuredIn(ctx: Context): Finding -> bool {
    (f: Finding) => Measured(ClassOf(f, ctx))
  }

  function RelevantIn(ctx: Context): Finding -> bool {
    (f: Finding) => ClassOf(f, ctx) != Irrelevant
  }

  function IDs(fs: seq<Finding>, p: Finding -> bool): seq<string> {
    Map((f: Finding) => f.id, Filter(fs, p))
  }

  function ScoreOf(passed: nat, failed: nat, warned: nat): Score {
    if passed + failed + warned == 0 then Onbekend
    else if failed + warned == 0 then Soeverein
    else if failed > 0 && passed == 0 then Afhankelijk
    else Voldoende
  }

  function CategoryScore(fs: seq<Finding>, ctx: Context): Score {
    ScoreOf(N(fs, Passed, ctx), N(fs, Failed, ctx), N(fs, Warned, ctx))
  }

  function Total(fs: seq<Finding>, ctx: Context): nat {
    Count(fs, RelevantIn(ctx))
  }

  predicate AnyMeasured(fs: seq<Finding>, ctx: Context) {
    N(fs, Passed, ctx) + N(fs, Failed, ctx) + N(fs, Warned, ctx) > 0
  }

  /** A rule result without its sentence. */
  datatype Outcome = Outcome(score: Score, evidence: seq<string>, reason: string)

  /** A gap reason exactly when nothing is measured; stale when every relevant finding is too old. */
  function Result(fs: seq<Finding>, ctx: Context): Outcome {
    if AnyMeasured(fs, ctx) then Outcome(CategoryScore(fs, ctx), IDs(fs, MeasuredIn(ctx)), "")
    else Outcome(Onbekend, IDs(fs, RelevantIn(ctx)),
      if Total(fs, ctx) > 0 && N(fs, Stale, ctx) == Total(fs, ctx) then "measurement_stale" else "not_measured")
  }

  /** The counters the loop keeps, and the two evidence lists. */
  datatype Tally = Tally(total: nat, stale: nat, passed: nat, failed: nat, warned: nat, notTested: nat, errored: nat,
                         measured: seq<string>, all: seq<string>)

  predicate Tallied(t: Tally, fs: seq<Finding>, ctx: Context) {
    && t.total == Total(fs, ctx) && t.stale == N(fs, Stale, ctx)
    && t.passed == N(fs, Passed, ctx) && t.failed == N(fs, Failed, ctx) && t.warned == N(fs, Warned, ctx)
    && t.notTested == N(fs, NotTested, ctx) && t.errored == N(fs, Errored, ctx)
    && t.measured == IDs(fs, MeasuredIn(ctx)) && t.all == IDs(fs, RelevantIn(ctx))
  }

  /** One finding entering the tally. */
  function Enter(t: Tally, f: Finding, ctx: Context): Tally {
    var u := t.(total := t.total + 1, all := t.all + [f.id]);
    var v := u.(measured := u.measured + [f.id]);
    match ClassOf(f, ctx)
    case Irrelevant => t
    case Stale => u.(stale := u.stale + 1)
    case Passed => v.(passed := v.passed + 1)
    case Failed => v.(failed := v.failed + 1)
    case Warned => v.(warned := v.warned + 1)
    case NotTested => u.(notTested := u.notTested + 1)
    case Errored => u.(errored := u.errored + 1)
  }

  lemma CountNext(fs: seq<Finding>, f: Finding, p: Finding -> bool)
    ensures Count(fs + [f], p) == Count(fs, p) + if p(f) then 1 else 0
  {
    CountConcat(fs, [f], p);
    assert |[f][1..]| == 0;
  }

  lemma IDsNext(fs: seq<Finding>, f: Finding, p: Finding -> bool)
    ensures IDs(fs + [f], p) == IDs(fs, p) + if p(f) then [f.id] else []
  {
    FilterConcat(fs, [f], p);
    assert Filter([f], p) == if p(f) then [f] else [];
  }

  lemma EnterTallied(t: Tally, fs: seq<Finding>, f: Finding, ctx: Context)
    requires Tallied(t, fs, ctx)
    ensures Tallied(Enter(t, f, ctx), fs + [f], ctx)
  {
    hide ClassOf, IDs;
    forall c ensures N(fs + [f], c, ctx) == N(fs, c, ctx) + if ClassOf(f, ctx) == c then 1 else 0 {
      CountNext(fs, f, Is(c, ctx));
    }
    CountNext(fs, f, RelevantIn(ctx));
    IDsNext(fs, f, RelevantIn(ctx));
    IDsNext(fs, f, MeasuredIn(ctx));
  }

  lemma NothingTallied(ctx: Context)
    ensures Tallied(Tally(0, 0, 0, 0, 0, 0, 0, [], []), [], ctx)
  {
  }

  method TallyCategory(findings: seq<Finding>, ctx: Context) returns (t: Tally)
    ensures Tallied(t, findings, ctx)
  {
    hide Tallied;
    t := Tally(0, 0, 0, 0, 0, 0, 0, [], []);
    NothingTallied(ctx);
    for i := 0 to |findings|
      invariant Tallied(t, findings[..i], ctx)
    {
      var f := findings[i];
      PrefixStep(findings, i);
      EnterTallied(t, findings[..i], f, ctx);
      if !(PREFIX <= f.probe) || TextAttr(f, "category") !in ctx.categories {
        continue;
      }
      t := t.(total := t.total + 1, all := t.all + [f.id]);
      if IsStale(f, ctx) {
        t := t.(stale := t.stale + 1);
        continue;
      }
      match TextAttr(f, "status") {
        case "passed" => t := t.(passed := t.passed + 1, measured := t.measured + [f.id]);
        case "failed" => t := t.(failed := t.failed + 1, measured := t.measured + [f.id]);
        case "warning" => t := t.(warned := t.warned + 1, measured := t.measured + [f.id]);
        case "info" => t := t.(warned := t.warned + 1, measured := t.measured + [f.id]);
        case "error" => t := t.(errored := t.errored + 1);
        case _ => t := t.(notTested := t.notTested + 1);
      }
    }
    assert findings[..|findings|] == findings;
  }

  /** The six tallies account for every relevant finding once. */
  lemma {:induction false} SixTalliesSum(fs: seq<Finding>, ctx: Context)
    ensures N(fs, Passed, ctx) + N(fs, Failed, ctx) + N(fs, Warned, ctx)
            + N(fs, Stale, ctx) + N(fs, NotTested, ctx) + N(fs, Errored, ctx) == Total(fs, ctx)
  {
    if fs != [] {
      SixTalliesSum(fs[1..], ctx);
    }
  }

  lemma {:induction false} NothingRelevant(fs: seq<Finding>, ctx: Context)
    requires Total(fs, ctx) == 0
    ensures IDs(fs, RelevantIn(ctx)) == [] && !AnyMeasured(fs, ctx)
  {
    SixTalliesSum(fs, ctx);
    CountPositive(fs, RelevantIn(ctx));
    FilterNone(fs, RelevantIn(ctx));
  }

  method ScoreStandardsCategory(findings: seq<Finding>, ctx: Context) returns (res: Outcome)
    ensures res == Result(findings, ctx)
  {
    var t := TallyCategory(findings, ctx);
    hide N, Total, IDs;
    if t.total == 0 {
      NothingRelevant(findings, ctx);
      return Outcome(Onbekend, [], "not_measured");
    }
    var measured := t.passed + t.failed + t.warned;
    if measured == 0 {
      var reason := if t.stale > 0 && t.stale == t.total then "measurement_stale" else "not_measured";
      return Outcome(Onbekend, t.all, reason);
    }
    if t.passed == measured {
      return Outcome(Soeverein, t.measured, "");
    } else if t.failed > 0 && t.passed == 0 {
      return Outcome(Afhankelijk, t.measured, "");
    }
    return Outcome(Voldoende, t.measured, "");
  }

  // ----- Laws -----

  /** Neither score nor reason depends on the order of the findings. */
  lemma OrderIndependent(fs: seq<Finding>, gs: seq<Finding>, ctx: Context)
    requires multiset(fs) == multiset(gs)
    ensures Result(fs, ctx).score == Result(gs, ctx).score && Result(fs, ctx).reason == Result(gs, ctx).reason
  {
    forall c ensures N(fs, c, ctx) == N(gs, c, ctx) {
      CountPermutation(fs, gs, Is(c, ctx));
    }
    CountPermutation(fs, gs, RelevantIn(ctx));
  }

  /** Once something is measured, findings that are not never change the score, wherever they stand. */
  lemma UnmeasuredIsInvisible(fs: seq<Finding>, extra: seq<Finding>, gs: seq<Finding>, ctx: Context)
    requires AnyMeasured(fs, ctx) && forall f :: f in extra ==> !Measured(ClassOf(f, ctx))
    requires multiset(gs) == multiset(fs) + multiset(extra)
    ensures Result(gs, ctx).score == Result(fs, ctx).score && Result(gs, ctx).reason == ""
  {
    forall c | Measured(c) ensures N(gs, c, ctx) == N(fs, c, ctx) {
      CountPermutation(gs, fs + extra, Is(c, ctx));
      CountConcat(fs, extra, Is(c, ctx));
      CountPositive(extra, Is(c, ctx));
    }
    assert Measured(Passed) && Measured(Failed) && Measured(Warned);
  }

  function Level(c: Class): nat {
    match c
    case Passed => 3
    case Warned => 2
    case Failed => 1
    case _ => 0
  }

  /** Raising one fresh test along failed, warning, passed never lowers the score. */
  lemma RaisingNeverLowers(a: seq<Finding>, f: Finding, g: Finding, b: seq<Finding>, ctx: Context)
    requires Measured(ClassOf(f, ctx)) && Level(ClassOf(f, ctx)) <= Level(ClassOf(g, ctx))
    ensures Rank(Result(a + ([f] + b), ctx).score) <= Rank(Result(a + ([g] + b), ctx).score)
  {
    forall c ensures N(a + ([f] + b), c, ctx) == N(a + b, c, ctx) + if ClassOf(f, ctx) == c then 1 else 0 {
      CountAround(a, f, b, Is(c, ctx));
    }
    forall c ensures N(a + ([g] + b), c, ctx) == N(a + b, c, ctx) + if ClassOf(g, ctx) == c then 1 else 0 {
      CountAround(a, g, b, Is(c, ctx));
    }
    hide ClassOf, N;
  }

  /**
   * The documentation calls a category in which something is measured and nothing passed afhankelijk; the code does
   * so exactly when something also failed. Warnings alone score voldoende.
   */
  lemma NothingPassed(fs: seq<Finding>, ctx: Context)
    requires AnyMeasured(fs, ctx) && N(fs, Passed, ctx) == 0
    ensures Result(fs, ctx).score == Afhankelijk <==> N(fs, Failed, ctx) > 0
    ensures Result(fs, ctx).score == Voldoende <==> N(fs, Failed, ctx) == 0
  {
  }

  /** Such as a single warning. */
  lemma WarningAlone(f: Finding, ctx: Context)
    requires ClassOf(f, ctx) == Warned
    ensures AnyMeasured([f], ctx) && N([f], Passed, ctx) == 0 && Result([f], ctx).score == Voldoende
  {
    assert |[f][1..]| == 0;
  }

  /**
   * Across the two files: a category whose findings are all stale or untested sinks its dimension. Its result has a
   * gap reason but also evidence, so the fold takes its onbekend as the worst score of the dimension.
   */
  lemma UnmeasuredSinksDimension(fs: seq<Finding>, ctx: Context, r: RuleFold.Rule, rs: seq<RuleFold.Rule>,
                                 d: DimensionScore)
    requires r in rs && r.outcome.Some? && RuleFold.Verdict(d, rs)
    requires Outcome(r.outcome.value.score, r.outcome.value.evidence, r.outcome.value.reason) == Result(fs, ctx)
    requires !AnyMeasured(fs, ctx) && Total(fs, ctx) > 0
    ensures RuleFold.Gap(r) && d.score == Onbekend && d.completeness != Incomplete && !d.notApplicable
  {
    assert Result(fs, ctx).evidence != [] by {
      CountPositive(fs, RelevantIn(ctx));
      var f :| f in fs && RelevantIn(ctx)(f);
      FilterHas(fs, RelevantIn(ctx), f);
    }
    assert Result(fs, ctx).score == Onbekend && Result(fs, ctx).reason in RuleFold.GAP_REASONS;
    RuleFold.EvidencedGap(r);
    RuleFold.WorstIsOnbekend(d, r, rs);
  }

  // ----- The verdict, told of the findings -----

  /** f measures the category and is not too old. */
  predicate Fresh(f: Finding, ctx: Context) {
    && "internetnl." <= f.probe && TextAttr(f, "category") in ctx.categories
    && var at := ctx.parse(TextAttr(f, "measured_at"));
       at.None? || ctx.now - at.value <= ctx.maxAge
  }

  predicate TooOld(f: Finding, ctx: Context) {
    && "internetnl." <= f.probe && TextAttr(f, "category") in ctx.categories
    && var at := ctx.parse(TextAttr(f, "measured_at"));
       at.Some? && ctx.now - at.value > ctx.maxAge
  }

  predicate Says(f: Finding, ctx: Context, statuses: set<string>) {
    Fresh(f, ctx) && TextAttr(f, "status") in statuses
  }

  predicate Tested(f: Finding, ctx: Context) {
    Says(f, ctx, {"passed", "failed", "warning", "info"})
  }

  lemma ClassTells(f: Finding, ctx: Context)
    ensures ClassOf(f, ctx) == Passed <==> Says(f, ctx, {"passed"})
    ensures ClassOf(f, ctx) == Failed <==> Says(f, ctx, {"failed"})
    ensures ClassOf(f, ctx) == Warned <==> Says(f, ctx, {"warning", "info"})
    ensures ClassOf(f, ctx) == Stale <==> TooOld(f, ctx)
    ensures ClassOf(f, ctx) == Irrelevant <==> !Fresh(f, ctx) && !TooOld(f, ctx)
  {
  }

  lemma CountsTell(fs: seq<Finding>, ctx: Context)
    ensures N(fs, Passed, ctx) > 0 <==> exists f :: f in fs && Says(f, ctx, {"passed"})
    ensures N(fs, Failed, ctx) > 0 <==> exists f :: f in fs && Says(f, ctx, {"failed"})
    ensures N(fs, Warned, ctx) > 0 <==> exists f :: f in fs && Says(f, ctx, {"warning", "info"})
  {
    CountPositive(fs, Is(Passed, ctx));
    CountPositive(fs, Is(Failed, ctx));
    CountPositive(fs, Is(Warned, ctx));
    forall f ensures && (ClassOf(f, ctx) == Passed <==> Says(f, ctx, {"passed"}))
                     && (ClassOf(f, ctx) == Failed <==> Says(f, ctx, {"failed"}))
                     && (ClassOf(f, ctx) == Warned <==> Says(f, ctx, {"warning", "info"})) {
      ClassTells(f, ctx);
    }
    hide ClassOf, Says;
    forall f ensures Is(Passed, ctx)(f) == Says(f, ctx, {"passed"}) && Is(Failed, ctx)(f) == Says(f, ctx, {"failed"})
                     && Is(Warned, ctx)(f) == Says(f, ctx, {"warning", "info"}) {
    }
  }

  lemma SaysOneOf(f: Finding, ctx: Context)
    ensures Tested(f, ctx) <==>
            Says(f, ctx, {"passed"}) || Says(f, ctx, {"failed"}) || Says(f, ctx, {"warning", "info"})
    ensures Says(f, ctx, {"passed"}) ==> !Says(f, ctx, {"failed"}) && !Says(f, ctx, {"warning", "info"})
  {
  }

  /** Onbekend if nothing was tested, soeverein if all tests passed, afhankelijk if some failed and none passed. */
  lemma ScoreTells(fs: seq<Finding>, ctx: Context)
    ensures var score := Result(fs, ctx).score;
            && (score == Onbekend <==> forall f :: f in fs ==> !Tested(f, ctx))
            && (score == Soeverein <==>
                (exists f :: f in fs && Tested(f, ctx))
                && forall f :: f in fs && Tested(f, ctx) ==> Says(f, ctx, {"passed"}))
            && (score == Afhankelijk <==>
                (exists f :: f in fs && Says(f, ctx, {"failed"}))
                && forall f :: f in fs ==> !Says(f, ctx, {"passed"}))
            && !score.Other?
  {
    CountsTell(fs, ctx);
    forall f ensures && (Tested(f, ctx) <==>
                         Says(f, ctx, {"passed"}) || Says(f, ctx, {"failed"}) || Says(f, ctx, {"warning", "info"}))
                     && (Says(f, ctx, {"passed"}) ==> !Says(f, ctx, {"failed"}) && !Says(f, ctx, {"warning", "info"})) {
      SaysOneOf(f, ctx);
    }
    hide Says, Tested, N, IDs, Total;
  }

  lemma EvidenceHas(fs: seq<Finding>, p: Finding -> bool)
    ensures forall id :: id in IDs(fs, p) <==> exists f :: f in fs && p(f) && f.id == id
  {
    var kept := Filter(fs, p);
    forall id | id in IDs(fs, p) ensures exists f :: f in fs && p(f) && f.id == id {
      var i :| 0 <= i < |kept| && IDs(fs, p)[i] == id;
      assert kept[i] in fs && p(kept[i]);
    }
    forall f | f in fs && p(f) ensures f.id in IDs(fs, p) {
      FilterHas(fs, p, f);
      var i :| 0 <= i < |kept| && kept[i] == f;
      assert IDs(fs, p)[i] == f.id;
    }
  }

  lemma {:induction false} FewerCount(fs: seq<Finding>, p: Finding -> bool, q: Finding -> bool)
    requires forall f :: p(f) ==> q(f)
    ensures Count(fs, p) <= Count(fs, q)
    ensures Count(fs, p) == Count(fs, q) <==> forall f :: f in fs && q(f) ==> p(f)
  {
    if fs != [] {
      FewerCount(fs[1..], p, q);
      assert forall f :: f in fs <==> f == fs[0] || f in fs[1..];
    }
  }

  lemma AllStaleTells(fs: seq<Finding>, ctx: Context)
    ensures Total(fs, ctx) > 0 && N(fs, Stale, ctx) == Total(fs, ctx) <==>
            (exists f :: f in fs && TooOld(f, ctx)) && forall f :: f in fs ==> !Fresh(f, ctx)
  {
    forall f ensures (Is(Stale, ctx)(f) <==> TooOld(f, ctx))
      && (RelevantIn(ctx)(f) <==> Fresh(f, ctx) || TooOld(f, ctx)) {
      ClassTells(f, ctx);
    }
    assert forall f :: !(Fresh(f, ctx) && TooOld(f, ctx));
    hide ClassOf, Fresh, TooOld;
    FewerCount(fs, Is(Stale, ctx), RelevantIn(ctx));
    CountPositive(fs, RelevantIn(ctx));
    CountPositive(fs, Is(Stale, ctx));
  }

  /** The evidence is the tested findings' and no reason is given; or, with nothing tested, it is all there is. */
  lemma EvidenceTells(fs: seq<Finding>, ctx: Context)
    ensures var res := Result(fs, ctx);
            if exists f :: f in fs && Tested(f, ctx) then
              res.reason == "" && forall id :: id in res.evidence <==>
                exists f :: f in fs && Tested(f, ctx) && f.id == id
            else
              && (forall id :: id in res.evidence <==>
                  exists f :: f in fs && (Fresh(f, ctx) || TooOld(f, ctx)) && f.id == id)
              && (res.reason == "measurement_stale" || res.reason == "not_measured")
              && (res.reason == "measurement_stale" <==>
                  (exists f :: f in fs && TooOld(f, ctx)) && forall f :: f in fs ==> !Fresh(f, ctx))
  {
    CountsTell(fs, ctx);
    forall f ensures && (Tested(f, ctx) <==> MeasuredIn(ctx)(f))
      && (Fresh(f, ctx) || TooOld(f, ctx) <==> RelevantIn(ctx)(f))
                     && (Tested(f, ctx) <==>
                         Says(f, ctx, {"passed"}) || Says(f, ctx, {"failed"}) || Says(f, ctx, {"warning", "info"})) {
      ClassTells(f, ctx);
      SaysOneOf(f, ctx);
    }
    EvidenceHas(fs, MeasuredIn(ctx));
    EvidenceHas(fs, RelevantIn(ctx));
    AllStaleTells(fs, ctx);
    hide Says, Tested, Fresh, TooOld, N, IDs, Total, ClassOf, Measured;
  }
}
