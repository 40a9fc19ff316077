/** The screens on assessments as the scorer writes them (cmd/wanderer/assess.go, internal/assessor/engine.go). */
module ScoresToScreens {
  import opened Sequences
  import opened Assessments
  import RuleFold
  import Flows
  import Fleet
  import Screens
  import A = Aggregate

  const WAND := "wand"
  const FRAMEWORKS: set<string> := {WAND, "eucsf"}

  /** Every rule of a pack has an ID of its own. */
  predicate DistinctRules(rules: seq<RuleFold.Rule>) {
    forall i, j :: 0 <= i < j < |rules| ==> rules[i].id != rules[j].id
  }

  predicate IsFlowRule(id: string) {
    exists r :: r in Flows.FLOW_RULES && r.id == id
  }

  /** The flow rules belong to the wand pack. */
  predicate InPack(fw: string, rules: seq<RuleFold.Rule>) {
    fw in FRAMEWORKS && DistinctRules(rules) && (fw != WAND ==> forall r :: r in rules ==> !IsFlowRule(r.id))
  }

  /** a holds what Assess made of rules. */
  ghost predicate WrittenFrom(a: Assessment, rules: seq<RuleFold.Rule>, dims: seq<string>) {
    && InPack(a.framework, rules) && Distinct(dims)
    && |a.dimensions| == |dims| && forall i :: 0 <= i < |dims| ==> RuleFold.Assessed(a.dimensions[i], dims[i], rules)
  }

  ghost predicate Written(a: Assessment) {
    exists rules, dims :: WrittenFrom(a, rules, dims)
  }

  lemma DimensionsDistinct()
    ensures Distinct(RuleFold.WAND_DIMENSIONS)
  {
    var ds := RuleFold.WAND_DIMENSIONS;
    forall i, j | 0 <= i < j < |ds| ensures ds[i] != ds[j] {
      assert ds[i][0] != ds[j][0];
    }
  }

  /** One assessment of a scan; none when a rule panics past its guard. */
  method AssessScan(fw: string, rules: seq<RuleFold.Rule>) returns (a: Option<Assessment>)
    requires InPack(fw, rules)
    ensures a.None? <==> exists r :: r in rules && r.dimension in RuleFold.WAND_DIMENSIONS && !RuleFold.Registered(r)
    ensures a.Some? ==> a.value.framework == fw && WrittenFrom(a.value, rules, RuleFold.WAND_DIMENSIONS)
  {
    hide RuleFold.Assessed, RuleFold.Registered, InPack;
    DimensionsDistinct();
    var ds := RuleFold.Assess(rules);
    match ds {
      case None => return None;
      case Some(dimensions) => return Some(Assessment(fw, dimensions));
    }
  }

  // ----- What the lines are -----

  lemma LineIsOfRule(d: DimensionScore, dim: string, rules: seq<RuleFold.Rule>, line: Rationale)
    requires RuleFold.Assessed(d, dim, rules) && line in d.rationale
    ensures exists r :: r in rules && line == RuleFold.Line(r)
  {
    var group := Filter(rules, RuleFold.InDim(dim));
    var order :| multiset(order) == multiset(group) && SortedBy(order, RuleFold.ByID())
      && d.rationale == RuleFold.Lines(order);
    var i :| 0 <= i < |d.rationale| && d.rationale[i] == line;
    assert order[i] in multiset(group) && order[i] in group;
    assert order[i] in rules && line == RuleFold.Line(order[i]);
  }

  lemma {:induction false} EntryHasDimension(ds: seq<DimensionScore>, line: Rationale)
    requires line in Flows.Entries(ds)
    ensures exists i :: 0 <= i < |ds| && line in ds[i].rationale
  {
    if line !in ds[0].rationale {
      EntryHasDimension(ds[1..], line);
      var i :| 0 <= i < |ds[1..]| && line in ds[1..][i].rationale;
      assert line in ds[i + 1].rationale;
    } else {
      assert line in ds[0].rationale;
    }
  }

  /** Every line comes from a rule of the pack and bears one of the four scores. */
  lemma WrittenLine(a: Assessment, rules: seq<RuleFold.Rule>, dims: seq<string>, line: Rationale)
    requires WrittenFrom(a, rules, dims) && line in Flows.Entries(a.dimensions)
    ensures IsValid(line.score) && exists r :: r in rules && r.id == line.rule
  {
    hide RuleFold.Assessed, InPack;
    EntryHasDimension(a.dimensions, line);
    var i :| 0 <= i < |a.dimensions| && line in a.dimensions[i].rationale;
    LineIsOfRule(a.dimensions[i], dims[i], rules, line);
  }

  // ----- One line per rule -----

  function OfRule(id: string): Rationale -> bool {
    (l: Rationale) => l.rule == id
  }

  function Named(id: string): RuleFold.Rule -> bool {
    (r: RuleFold.Rule) => r.id == id
  }

  function NamedIn(id: string, dims: seq<string>): RuleFold.Rule -> bool {
    (r: RuleFold.Rule) => r.id == id && r.dimension in dims
  }

  lemma {:induction false} CountLines(order: seq<RuleFold.Rule>, id: string)
    ensures Count(RuleFold.Lines(order), OfRule(id)) == Count(order, Named(id))
  {
    if order != [] {
      CountLines(order[1..], id);
      assert RuleFold.Lines(order)[1..] == RuleFold.Lines(order[1..]);
    }
  }

  lemma {:induction false} CountFiltered(rules: seq<RuleFold.Rule>, id: string, dim: string)
    ensures Count(Filter(rules, RuleFold.InDim(dim)), Named(id)) == Count(rules, NamedIn(id, [dim]))
  {
    if rules != [] {
      CountFiltered(rules[1..], id, dim);
      CountConcat(if rules[0].dimension == dim then [rules[0]] else [], Filter(rules[1..], RuleFold.InDim(dim)),
                  Named(id));
    }
  }

  lemma {:induction false} CountSplits(rules: seq<RuleFold.Rule>, id: string, dim: string, dims: seq<string>)
    requires dim !in dims
    ensures Count(rules, NamedIn(id, [dim] + dims)) ==
            Count(rules, NamedIn(id, [dim])) + Count(rules, NamedIn(id, dims))
  {
    if rules != [] {
      CountSplits(rules[1..], id, dim, dims);
    }
  }

  lemma DimensionLines(d: DimensionScore, dim: string, rules: seq<RuleFold.Rule>, id: string)
    requires RuleFold.Assessed(d, dim, rules)
    ensures Count(d.rationale, OfRule(id)) == Count(rules, NamedIn(id, [dim]))
  {
    var group := Filter(rules, RuleFold.InDim(dim));
    var order :| multiset(order) == multiset(group) && SortedBy(order, RuleFold.ByID())
      && d.rationale == RuleFold.Lines(order);
    CountLines(order, id);
    CountPermutation(order, group, Named(id));
    CountFiltered(rules, id, dim);
  }

  lemma {:induction false} AllLines(ds: seq<DimensionScore>, dims: seq<string>, rules: seq<RuleFold.Rule>, id: string)
    requires |ds| == |dims| && Distinct(dims)
    requires forall i :: 0 <= i < |dims| ==> RuleFold.Assessed(ds[i], dims[i], rules)
    ensures Count(Flows.Entries(ds), OfRule(id)) == Count(rules, NamedIn(id, dims))
    decreases |ds|
  {
    hide RuleFold.Assessed;
    if ds == [] {
      CountPositive(rules, NamedIn(id, dims));
    } else {
      AllLines(ds[1..], dims[1..], rules, id);
      DimensionLines(ds[0], dims[0], rules, id);
      CountConcat(ds[0].rationale, Flows.Entries(ds[1..]), OfRule(id));
      CountSplits(rules, id, dims[0], dims[1..]);
      assert dims == [dims[0]] + dims[1..];
    }
  }

  lemma {:induction false} NamedOnce(rules: seq<RuleFold.Rule>, id: string, dims: seq<string>)
    requires DistinctRules(rules)
    ensures Count(rules, NamedIn(id, dims)) <= 1
  {
    if rules != [] {
      NamedOnce(rules[1..], id, dims);
      CountPositive(rules[1..], NamedIn(id, dims));
    }
  }

  lemma CountTwo(rs: seq<Rationale>, i: nat, j: nat, id: string)
    requires i < j < |rs| && rs[i].rule == id && rs[j].rule == id
    ensures Count(rs, OfRule(id)) >= 2
  {
    assert rs == rs[..j] + rs[j..];
    CountConcat(rs[..j], rs[j..], OfRule(id));
    assert rs[..j][i] in rs[..j] && OfRule(id)(rs[..j][i]) && rs[j..][0] in rs[j..] && OfRule(id)(rs[j..][0]);
    CountPositive(rs[..j], OfRule(id));
    CountPositive(rs[j..], OfRule(id));
  }

  /** A written assessment has at most one line per rule. */
  lemma WrittenOnce(a: Assessment, rules: seq<RuleFold.Rule>, dims: seq<string>, id: string)
    requires WrittenFrom(a, rules, dims)
    ensures Screens.AtMostOnce(Flows.Entries(a.dimensions), id)
  {
    hide RuleFold.Assessed;
    var rs := Flows.Entries(a.dimensions);
    AllLines(a.dimensions, dims, rules, id);
    NamedOnce(rules, id, dims);
    forall i, j | 0 <= i < j < |rs| ensures !(rs[i].rule == id && rs[j].rule == id) {
      if rs[i].rule == id && rs[j].rule == id {
        CountTwo(rs, i, j, id);
      }
    }
  }

  // ----- The two tables -----

  /** A scan's assessments: at most one per framework, each as the scorer wrote it. */
  ghost predicate FromScan(xs: multiset<Assessment>) {
    && (forall a :: a in xs ==> Written(a))
    && (forall a, b :: a in xs && b in xs && a.framework == b.framework ==> a == b)
  }

  lemma KnowsFlowRule(a: Assessment, r: Flows.FlowRule)
    requires Written(a) && r in Flows.FLOW_RULES && Flows.Last(Flows.Entries(a.dimensions), r.id).Some?
    ensures a.framework == WAND
  {
    hide RuleFold.Assessed;
    var rules, dims :| WrittenFrom(a, rules, dims);
    WrittenLine(a, rules, dims, Flows.Last(Flows.Entries(a.dimensions), r.id).value);
    assert IsFlowRule(r.id);
  }

  /** So the order of the map does not show. */
  lemma WrittenAgree(xs: multiset<Assessment>)
    requires FromScan(xs)
    ensures Flows.Agree(xs, Flows.FLOW_RULES)
  {
    hide Written;
    forall a, b, r | a in xs && b in xs && r in Flows.FLOW_RULES
      ensures Flows.SameScore(Flows.Last(Flows.Entries(a.dimensions), r.id),
              Flows.Last(Flows.Entries(b.dimensions), r.id))
    {
      if Flows.Last(Flows.Entries(a.dimensions), r.id).Some? && Flows.Last(Flows.Entries(b.dimensions), r.id).Some? {
        KnowsFlowRule(a, r);
        KnowsFlowRule(b, r);
      }
    }
  }

  lemma {:induction false} EntryHasAssessment(xs: seq<Assessment>, line: Rationale)
    requires line in Flows.AllEntries(xs)
    ensures exists a :: a in xs && line in Flows.Entries(a.dimensions)
  {
    if line !in Flows.Entries(xs[0].dimensions) {
      EntryHasAssessment(xs[1..], line);
      var a :| a in xs[1..] && line in Flows.Entries(a.dimensions);
      assert a in xs;
    } else {
      assert xs[0] in xs;
    }
  }

  lemma {:induction false} FlowHasLine(rs: seq<Rationale>, rules: seq<Flows.FlowRule>, f: Flows.Flow)
    requires f in Flows.FlowsFrom(rs, rules)
    ensures exists r :: r in rs && r.score == f.score
    decreases |rules|
  {
    if f in Flows.FlowsFrom(rs, rules[1..]) {
      FlowHasLine(rs, rules[1..], f);
    }
  }

  lemma ValidFlows(order: seq<Assessment>, f: Flows.Flow)
    requires FromScan(multiset(order)) && f in Flows.FlowsOf(order)
    ensures IsValid(f.score)
  {
    hide RuleFold.Assessed, Flows.AllEntries, Flows.Entries, Flows.FlowsFrom;
    FlowHasLine(Flows.AllEntries(order), Flows.FLOW_RULES, f);
    var line :| line in Flows.AllEntries(order) && line.score == f.score;
    EntryHasAssessment(order, line);
    var a :| a in order && line in Flows.Entries(a.dimensions);
    assert a in multiset(order);
    var rules, dims :| WrittenFrom(a, rules, dims);
    WrittenLine(a, rules, dims, line);
  }

  ghost predicate AllFromScans(snaps: seq<Fleet.Snapshot>) {
    forall s :: s in snaps && !s.status.ScanOther? ==> FromScan(s.assessments)
  }

  lemma NothingScored(snaps: seq<Fleet.Snapshot>, orders: seq<seq<Assessment>>)
    requires |snaps| == |orders| == 0
    ensures Flatten(Fleet.Scored(snaps, orders)) == []
  {
  }

  lemma {:induction false} ValidScored(snaps: seq<Fleet.Snapshot>, orders: seq<seq<Assessment>>, f: Flows.Flow)
    requires Fleet.Orders(snaps, orders) && AllFromScans(snaps) && f in Flatten(Fleet.Scored(snaps, orders))
    ensures IsValid(f.score)
    decreases |snaps|
  {
    hide FromScan, Flows.FlowsOf, Fleet.Completed, Fleet.Scored;
    if snaps == [] {
      NothingScored(snaps, orders);
    } else {
      Fleet.ScoredNext(snaps, orders, 0);
      assert snaps[0..] == snaps && orders[0..] == orders;
      Fleet.RestOrders(snaps, orders);
      assert snaps == [snaps[0]] + snaps[1..];
      var rest := Fleet.Scored(snaps[1..], orders[1..]);
      if snaps[0].status.ScanOther? {
        assert Fleet.Scored(snaps, orders) == rest;
        ValidScored(snaps[1..], orders[1..], f);
      } else {
        assert ([Flows.FlowsOf(orders[0])] + rest)[1..] == rest;
        if f in Flatten(rest) {
          ValidScored(snaps[1..], orders[1..], f);
        } else {
          ValidFlows(orders[0], f);
        }
      }
    }
  }

  lemma NoneBlank(snaps: seq<Fleet.Snapshot>, orders: seq<seq<Assessment>>)
    requires Fleet.Orders(snaps, orders) && AllFromScans(snaps)
    ensures !Fleet.SomeBlank(Fleet.Scored(snaps, orders))
  {
    hide AllFromScans, Fleet.Scored, Flatten;
    if f :| f in Flatten(Fleet.Scored(snaps, orders)) && f.score == BLANK {
      ValidScored(snaps, orders, f);
    }
  }

  /** On assessments the scorer wrote, the per-flow table and the fleet's totals agree in every column. */
  lemma AllColumnsAgree(snaps: seq<Fleet.Snapshot>, first: seq<seq<Assessment>>, second: seq<seq<Assessment>>,
                        s: Fleet.Summary, rows: seq<Fleet.Row>)
    requires Fleet.Orders(snaps, first) && Fleet.Orders(snaps, second) && AllFromScans(snaps)
    requires Fleet.Sums(s, Fleet.Scored(snaps, first), |snaps|)
    requires Fleet.IsRollup(rows, Flatten(Fleet.Scored(snaps, second)), Flows.FLOW_RULES)
    ensures Fleet.SumAfhankelijk(rows) == s.n - s.x
    ensures Fleet.SumOnbekend(rows) == s.unanswered
    ensures Fleet.SumInEEA(rows) == s.x
  {
    hide FromScan, Flows.Agree, Fleet.Sums, Fleet.IsRollup, Fleet.Scored, Fleet.SomeBlank, Flatten;
    forall x | x in snaps && !x.status.ScanOther? ensures Flows.Agree(x.assessments, Flows.FLOW_RULES) {
      WrittenAgree(x.assessments);
    }
    NoneBlank(snaps, first);
    Fleet.RowsEqualColumns(snaps, first, second, s, rows);
  }

  /** The targets' assessments, each under its framework's name. */
  ghost predicate AllFromTargets(ts: seq<A.Target>) {
    forall t, fw :: t in ts && fw in t.assessments ==> t.assessments[fw].framework == fw && Written(t.assessments[fw])
  }

  lemma LastOfOne(t: A.Target, id: string)
    requires AllFromTargets([t]) && Screens.AnyFails(t, WAND, id)
    ensures Screens.LastFails(t, WAND, id)
  {
    hide RuleFold.Assessed;
    var r :| r in Screens.Lines(t, WAND) && r.rule == id && r.score == Afhankelijk;
    var a := t.assessments[WAND];
    assert t in [t];
    var rules, dims :| WrittenFrom(a, rules, dims);
    WrittenOnce(a, rules, dims, id);
    Screens.OneLineAgrees(Flows.Entries(a.dimensions), id, r);
  }

  lemma FlowRulesAreWand(ts: seq<A.Target>, rule: Flows.FlowRule)
    requires AllFromTargets(ts) && rule in Flows.FLOW_RULES
    ensures Screens.KnownTo(ts, WAND, rule.id) && Screens.NoBars(ts)
  {
    hide RuleFold.Assessed;
    forall t, g | t in ts && g in t.assessments
      ensures '|' !in g && (g != WAND ==> !Screens.Mentions(Screens.Lines(t, g), rule.id))
    {
      var rules, dims :| WrittenFrom(t.assessments[g], rules, dims);
      assert g in FRAMEWORKS;
      if Screens.Mentions(Screens.Lines(t, g), rule.id) {
        Screens.LastMentioned(Screens.Lines(t, g), rule.id);
        KnowsFlowRule(t.assessments[g], rule);
      }
    }
  }

  lemma NotTheMerged(rule: Flows.FlowRule)
    requires A.Ref(WAND, rule.id) != A.WAND_CERT
    ensures A.Topic(A.Ref(WAND, rule.id)) != A.CERT_TOPIC && '|' !in WAND
  {
    assert A.Topic(A.Ref(WAND, rule.id))[0] == 'w' && A.CERT_TOPIC[0] == 'c';
  }

  /** And the concern table counts for a flow rule exactly the targets the flow table counts as afhankelijk. */
  lemma ConcernsAreFlows(ts: seq<A.Target>, orders: seq<seq<Assessment>>, rule: Flows.FlowRule,
                         concern: A.ConcernRow, row: Fleet.Row)
    requires Screens.DistinctIds(ts) && AllFromTargets(ts) && Screens.AllListed(orders, ts)
    requires rule in Flows.FLOW_RULES && A.Ref(WAND, rule.id) != A.WAND_CERT
    requires A.IsRow(concern, A.AllEntries(ts)) && concern.topic == A.Topic(A.Ref(WAND, rule.id))
    requires Fleet.IsRow(row, Flatten(Fleet.FlowsOfEach(orders)), rule.title)
    ensures concern.targetCount == row.afhankelijk
  {
    hide A.Topic, A.AllEntries, A.IsRow, Fleet.IsRow, Fleet.FlowsOfEach, Flatten, Written;
    hide Screens.AllListed, Screens.AnyFails, Screens.LastFails, Screens.KnownTo, Screens.NoBars, Screens.DistinctIds;
    FlowRulesAreWand(ts, rule);
    NotTheMerged(rule);
    Screens.ConcernsEqualFlows(ts, orders, WAND, rule, concern, row);
    forall t | t in ts && Screens.AnyFails(t, WAND, rule.id) ensures Screens.LastFails(t, WAND, rule.id) {
      LastOfOne(t, rule.id);
    }
  }
}
