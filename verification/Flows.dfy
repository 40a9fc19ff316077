/** The sovereignty flows of a scan and the two ways they are counted (internal/ui/flows.go). */
module Flows {
  import opened Sequences
  import opened Assessments

  datatype FlowRule = FlowRule(id: string, title: string)

  /** A flow as both counts see it; its Dutch verdict text plays no part. */
  datatype Flow = Flow(title: string, score: Score)

  const FLOW_RULES: seq<FlowRule> := [
    FlowRule("wand.juridisch.apex_ip_eea", "Hosting"),
    FlowRule("wand.juridisch.mx_vendor_jurisdiction", "Mail"),
    FlowRule("wand.juridisch.ns_vendor_jurisdiction", "DNS"),
    FlowRule("wand.juridisch.cert_issuer_eea", "Certificaat"),
    FlowRule("wand.transit.eu_path", "Netwerkpad"),
    FlowRule("wand.technologie.no_us_hyperscaler", "Hyperscaler"),
    FlowRule("wand.technologie.third_parties_eea", "Derde partijen")
  ]

  predicate DistinctTitles(rules: seq<FlowRule>) {
    forall i, j :: 0 <= i < j < |rules| ==> rules[i].title != rules[j].title
  }

  predicate Titled(rules: seq<FlowRule>, t: string) {
    exists r :: r in rules && r.title == t
  }

  // ----- From assessments to flows -----

  function Entries(ds: seq<DimensionScore>): seq<Rationale> {
    if ds == [] then [] else ds[0].rationale + Entries(ds[1..])
  }

  function AllEntries(xs: seq<Assessment>): seq<Rationale> {
    if xs == [] then [] else Entries(xs[0].dimensions) + AllEntries(xs[1..])
  }

  /** The last rationale for a rule: later entries replace earlier ones. */
  function Last(rs: seq<Rationale>, id: string): (r: Option<Rationale>)
    ensures r.Some? ==> r.value in rs && r.value.rule == id
  {
    if rs == [] then None
    else if rs[|rs| - 1].rule == id then Some(rs[|rs| - 1])
    else Last(rs[..|rs| - 1], id)
  }

  function FlowsFrom(rs: seq<Rationale>, rules: seq<FlowRule>): seq<Flow>
    decreases |rules|
  {
    if rules == [] then []
    else
      (match Last(rs, rules[0].id)
       case None => []
       case Some(r) => [Flow(rules[0].title, r.score)]) + FlowsFrom(rs, rules[1..])
  }

  function FlowsOf(xs: seq<Assessment>): seq<Flow> {
    FlowsFrom(AllEntries(xs), FLOW_RULES)
  }

  lemma {:induction false} FlowsTitled(rs: seq<Rationale>, rules: seq<FlowRule>)
    ensures forall f :: f in FlowsFrom(rs, rules) ==> Titled(rules, f.title)
    decreases |rules|
  {
    if rules != [] {
      FlowsTitled(rs, rules[1..]);
      assert rules[0] in rules;
      forall f | f in FlowsFrom(rs, rules[1..]) ensures Titled(rules, f.title) {
        var r :| r in rules[1..] && r.title == f.title;
        assert r in rules;
      }
    }
  }

  /** byRule holds, per rule, its last rationale among rs. */
  predicate Indexes(byRule: map<string, Rationale>, rs: seq<Rationale>) {
    && (forall id :: id in byRule ==> Last(rs, id) == Some(byRule[id]))
    && (forall r :: r in rs ==> r.rule in byRule)
  }

  lemma IndexOne(byRule: map<string, Rationale>, rs: seq<Rationale>, r: Rationale)
    requires Indexes(byRule, rs)
    ensures Indexes(byRule[r.rule := r], rs + [r])
  {
    assert (rs + [r])[..|rs|] == rs;
  }

  /** The innermost of the three nested loops that build the index. */
  method IndexRationale(byRule: map<string, Rationale>, ghost seen: seq<Rationale>, rs: seq<Rationale>)
    returns (out: map<string, Rationale>)
    requires Indexes(byRule, seen)
    ensures Indexes(out, seen + rs)
  {
    hide Indexes;
    out := byRule;
    assert seen + rs[..0] == seen;
    for k := 0 to |rs|
      invariant Indexes(out, seen + rs[..k])
    {
      assert seen + rs[..k + 1] == seen + rs[..k] + [rs[k]];
      IndexOne(out, seen + rs[..k], rs[k]);
      out := out[rs[k].rule := rs[k]];
    }
    assert rs[..|rs|] == rs;
  }

  method IndexDimensions(byRule: map<string, Rationale>, ghost seen: seq<Rationale>, ds: seq<DimensionScore>)
    returns (out: map<string, Rationale>)
    requires Indexes(byRule, seen)
    ensures Indexes(out, seen + Entries(ds))
  {
    hide Indexes;
    out := byRule;
    ghost var sofar := seen;
    for j := 0 to |ds|
      invariant Indexes(out, sofar) && sofar + Entries(ds[j..]) == seen + Entries(ds)
    {
      assert ds[j..][1..] == ds[j + 1..];
      assert sofar + (ds[j].rationale + Entries(ds[j + 1..])) == (sofar + ds[j].rationale) + Entries(ds[j + 1..]);
      out := IndexRationale(out, sofar, ds[j].rationale);
      sofar := sofar + ds[j].rationale;
    }
    assert sofar == sofar + Entries(ds[|ds|..]);
  }

  method IndexAssessments(assessments: seq<Assessment>) returns (byRule: map<string, Rationale>)
    ensures Indexes(byRule, AllEntries(assessments))
  {
    hide Entries;
    byRule := map[];
    ghost var seen: seq<Rationale> := [];
    for i := 0 to |assessments|
      invariant Indexes(byRule, seen) && seen + AllEntries(assessments[i..]) == AllEntries(assessments)
    {
      var ds := assessments[i].dimensions;
      assert assessments[i..][1..] == assessments[i + 1..];
      assert seen + (Entries(ds) + AllEntries(assessments[i + 1..])) ==
        (seen + Entries(ds)) + AllEntries(assessments[i + 1..]);
      byRule := IndexDimensions(byRule, seen, ds);
      seen := seen + Entries(ds);
    }
    assert seen == seen + AllEntries(assessments[|assessments|..]);
  }

  lemma FlowsDone(flows: seq<Flow>, rs: seq<Rationale>, rest: seq<FlowRule>)
    requires rest == []
    ensures flows == flows + FlowsFrom(rs, rest)
  {
  }

  lemma FlowsNext(rs: seq<Rationale>, rules: seq<FlowRule>, i: nat)
    requires i < |rules|
    ensures FlowsFrom(rs, rules[i..]) ==
            (match Last(rs, rules[i].id) case None => [] case Some(r) => [Flow(rules[i].title, r.score)])
            + FlowsFrom(rs, rules[i + 1..])
  {
    assert rules[i..][1..] == rules[i + 1..];
  }

  method PickFlows(byRule: map<string, Rationale>, ghost rs: seq<Rationale>, rules: seq<FlowRule>)
    returns (flows: seq<Flow>)
    requires Indexes(byRule, rs)
    ensures flows == FlowsFrom(rs, rules)
  {
    hide Last, Titled, FlowsFrom;
    flows := [];
    for i := 0 to |rules|
      invariant flows + FlowsFrom(rs, rules[i..]) == FlowsFrom(rs, rules)
    {
      FlowsNext(rs, rules, i);
      if rules[i].id in byRule {
        flows := flows + [Flow(rules[i].title, byRule[rules[i].id].score)];
      }
    }
    FlowsDone(flows, rs, rules[|rules|..]);
  }

  method SovereigntyFlows(assessments: seq<Assessment>) returns (flows: seq<Flow>)
    ensures flows == FlowsOf(assessments)
  {
    hide Indexes, FlowsFrom;
    var byRule := IndexAssessments(assessments);
    flows := PickFlows(byRule, AllEntries(assessments), FLOW_RULES);
  }

  // ----- Does the order of the assessments matter? -----

  predicate SameScore(a: Option<Rationale>, b: Option<Rationale>) {
    a.Some? && b.Some? ==> a.value.score == b.value.score
  }

  /** Every assessment that knows a flow rule gives it the same score. */
  predicate Agree(xs: multiset<Assessment>, rules: seq<FlowRule>) {
    forall a, b, r :: a in xs && b in xs && r in rules ==>
      SameScore(Last(Entries(a.dimensions), r.id), Last(Entries(b.dimensions), r.id))
  }

  function ScoreOf(r: Option<Rationale>): Option<Score> {
    match r case None => None case Some(v) => Some(v.score)
  }

  lemma {:induction false} LastConcat(a: seq<Rationale>, b: seq<Rationale>, id: string)
    ensures Last(a + b, id) == if Last(b, id).Some? then Last(b, id) else Last(a, id)
    decreases |b|
  {
    if b == [] {
      assert a + b == a;
    } else {
      assert (a + b)[..|a + b| - 1] == a + b[..|b| - 1];
      LastConcat(a, b[..|b| - 1], id);
    }
  }

  /** A rule's last rationale comes from one of the assessments that mention it. */
  lemma {:induction false} LastComesFrom(xs: seq<Assessment>, id: string) returns (a: Assessment)
    requires Last(AllEntries(xs), id).Some?
    ensures a in xs && Last(Entries(a.dimensions), id) == Last(AllEntries(xs), id)
  {
    LastConcat(Entries(xs[0].dimensions), AllEntries(xs[1..]), id);
    if Last(AllEntries(xs[1..]), id).Some? {
      a := LastComesFrom(xs[1..], id);
    } else {
      a := xs[0];
    }
  }

  lemma {:induction false} LastIsKnown(xs: seq<Assessment>, a: Assessment, id: string)
    requires a in xs && Last(Entries(a.dimensions), id).Some?
    ensures Last(AllEntries(xs), id).Some?
  {
    LastConcat(Entries(xs[0].dimensions), AllEntries(xs[1..]), id);
    if xs[0] != a {
      LastIsKnown(xs[1..], a, id);
    }
  }

  /** The assessment that comes last decides every rule it mentions. */
  lemma {:induction false} LastDecides(xs: seq<Assessment>, a: Assessment, id: string)
    requires Last(Entries(a.dimensions), id).Some?
    ensures Last(AllEntries(xs + [a]), id) == Last(Entries(a.dimensions), id)
  {
    if xs == [] {
      assert xs + [a] == [a];
      assert Entries(a.dimensions) + AllEntries([a][1..]) == Entries(a.dimensions);
    } else {
      assert (xs + [a])[1..] == xs[1..] + [a];
      LastDecides(xs[1..], a, id);
      LastConcat(Entries(xs[0].dimensions), AllEntries(xs[1..] + [a]), id);
    }
  }

  predicate SameScores(p: seq<Rationale>, q: seq<Rationale>, rules: seq<FlowRule>) {
    forall r :: r in rules ==> ScoreOf(Last(p, r.id)) == ScoreOf(Last(q, r.id))
  }

  /** fs is rest with a flow titled t in front, if there is a score; no flow of rest bears that title. */
  predicate Headed(fs: seq<Flow>, rest: seq<Flow>, score: Option<Score>, t: string) {
    && (forall f :: f in rest ==> f.title != t)
    && fs == (if score.Some? then [Flow(t, score.value)] else []) + rest
  }

  lemma HeadFlow(p: seq<Rationale>, rules: seq<FlowRule>)
    requires rules != [] && DistinctTitles(rules)
    ensures Headed(FlowsFrom(p, rules), FlowsFrom(p, rules[1..]), ScoreOf(Last(p, rules[0].id)), rules[0].title)
  {
    FlowsTitled(p, rules[1..]);
  }

  lemma HeadsTell(f: seq<Flow>, f': seq<Flow>, g: seq<Flow>, g': seq<Flow>, a: Option<Score>, b: Option<Score>,
                  t: string)
    requires Headed(f, f', a, t) && Headed(g, g', b, t)
    ensures f == g <==> a == b && f' == g'
  {
    assert (a.Some? ==> f[0].title == t) && (b.Some? ==> g[0].title == t);
    assert (f' != [] ==> f'[0].title != t) && (g' != [] ==> g'[0].title != t);
    if f == g && a == b {
      var n := if a.Some? then 1 else 0;
      assert f[n..] == f' && g[n..] == g';
    }
  }

  /** Flows record exactly the rules' scores. */
  lemma {:induction false} FlowsRecordScores(p: seq<Rationale>, q: seq<Rationale>, rules: seq<FlowRule>)
    requires DistinctTitles(rules)
    ensures FlowsFrom(p, rules) == FlowsFrom(q, rules) <==> SameScores(p, q, rules)
    decreases |rules|
  {
    if rules != [] {
      hide Last, FlowsFrom;
      FlowsRecordScores(p, q, rules[1..]);
      HeadFlow(p, rules);
      HeadFlow(q, rules);
      HeadsTell(FlowsFrom(p, rules), FlowsFrom(p, rules[1..]), FlowsFrom(q, rules), FlowsFrom(q, rules[1..]),
                ScoreOf(Last(p, rules[0].id)), ScoreOf(Last(q, rules[0].id)), rules[0].title);
      assert rules == [rules[0]] + rules[1..];
    }
  }

  ghost predicate OrderIrrelevant(xs: multiset<Assessment>, rules: seq<FlowRule>) {
    forall p: seq<Assessment>, q: seq<Assessment> :: multiset(p) == xs && multiset(q) == xs ==>
      FlowsFrom(AllEntries(p), rules) == FlowsFrom(AllEntries(q), rules)
  }

  lemma {:induction false} Listing<T>(m: multiset<T>) returns (s: seq<T>)
    ensures multiset(s) == m
    decreases |m|
  {
    s := [];
    if m != multiset{} {
      var x :| x in m;
      var rest := Listing(m - multiset{x});
      s := rest + [x];
    }
  }

  lemma DisagreeingOrders(xs: multiset<Assessment>, rules: seq<FlowRule>)
    returns (p: seq<Assessment>, q: seq<Assessment>)
    requires !Agree(xs, rules) && DistinctTitles(rules)
    ensures multiset(p) == xs && multiset(q) == xs
    ensures FlowsFrom(AllEntries(p), rules) != FlowsFrom(AllEntries(q), rules)
  {
    hide Last, Entries, AllEntries, FlowsFrom, DistinctTitles;
    var a, b, r :| a in xs && b in xs && r in rules
      && !SameScore(Last(Entries(a.dimensions), r.id), Last(Entries(b.dimensions), r.id));
    p := Listing(xs - multiset{a});
    q := Listing(xs - multiset{b});
    LastDecides(p, a, r.id);
    LastDecides(q, b, r.id);
    p, q := p + [a], q + [b];
    FlowsRecordScores(AllEntries(p), AllEntries(q), rules);
  }

  lemma AgreeingScores(xs: multiset<Assessment>, rules: seq<FlowRule>, r: FlowRule, p: seq<Assessment>,
                       q: seq<Assessment>)
    requires Agree(xs, rules) && r in rules && multiset(p) == xs && multiset(q) == xs
    ensures Last(AllEntries(p), r.id).Some? ==> ScoreOf(Last(AllEntries(p), r.id)) == ScoreOf(Last(AllEntries(q), r.id))
  {
    hide Last, Entries, AllEntries;
    if Last(AllEntries(p), r.id).Some? {
      var a := LastComesFrom(p, r.id);
      assert a in multiset(p) && a in multiset(q);
      LastIsKnown(q, a, r.id);
      var b := LastComesFrom(q, r.id);
      assert b in multiset(q);
      assert SameScore(Last(Entries(a.dimensions), r.id), Last(Entries(b.dimensions), r.id));
    }
  }

  lemma AgreeingOrders(xs: multiset<Assessment>, rules: seq<FlowRule>, p: seq<Assessment>, q: seq<Assessment>)
    requires Agree(xs, rules) && DistinctTitles(rules) && multiset(p) == xs && multiset(q) == xs
    ensures FlowsFrom(AllEntries(p), rules) == FlowsFrom(AllEntries(q), rules)
  {
    hide Agree, Last, AllEntries, FlowsFrom, DistinctTitles;
    forall r | r in rules ensures ScoreOf(Last(AllEntries(p), r.id)) == ScoreOf(Last(AllEntries(q), r.id)) {
      AgreeingScores(xs, rules, r, p, q);
      AgreeingScores(xs, rules, r, q, p);
    }
    FlowsRecordScores(AllEntries(p), AllEntries(q), rules);
  }

  /** Last-wins over a map's values is well defined exactly when the assessments agree on every flow rule. */
  lemma OrderIrrelevantIffAgree(xs: multiset<Assessment>, rules: seq<FlowRule>)
    requires DistinctTitles(rules)
    ensures OrderIrrelevant(xs, rules) <==> Agree(xs, rules)
  {
    hide Agree, AllEntries, FlowsFrom, DistinctTitles;
    if Agree(xs, rules) {
      forall p, q | multiset(p) == xs && multiset(q) == xs
        ensures FlowsFrom(AllEntries(p), rules) == FlowsFrom(AllEntries(q), rules) {
        AgreeingOrders(xs, rules, p, q);
      }
    } else {
      var p, q := DisagreeingOrders(xs, rules);
    }
  }

  lemma FlowTitlesDistinct()
    ensures DistinctTitles(FLOW_RULES)
  {
    forall i, j | 0 <= i < j < |FLOW_RULES| ensures FLOW_RULES[i].title != FLOW_RULES[j].title {
      assert FLOW_RULES[i].title[0] != FLOW_RULES[j].title[0] || |FLOW_RULES[i].title| != |FLOW_RULES[j].title|;
    }
  }
}
