/**
 * The fleet's two independently coded counts, per domain and per flow, and the answer page's verdict
 * (internal/ui/flows.go, internal/ui/fleet_score.go, internal/ui/answer.go).
 */
module Fleet {
  import opened Sequences
  import opened Assessments
  import opened Flows

  datatype Kind = Outside | Unknown | Blank | Inside

  /** Blank is the score "": classifyFlows calls it answered, the rollup onbekend. */
  function KindOf(s: Score): Kind {
    match s
    case Afhankelijk => Outside
    case Onbekend => Unknown
    case Other(t) => if t == "" then Blank else Inside
    case _ => Inside
  }

  function Is(k: Kind): Flow -> bool {
    (f: Flow) => KindOf(f.score) == k
  }

  function IsAt(t: string, k: Kind): Flow -> bool {
    (f: Flow) => f.title == t && KindOf(f.score) == k
  }

  /** How many of fs are of kind k. */
  function Of(fs: seq<Flow>, k: Kind): nat {
    Count(fs, Is(k))
  }

  /** How many of fs are of kind k under title t. */
  function At(fs: seq<Flow>, t: string, k: Kind): nat {
    Count(fs, IsAt(t, k))
  }

  // ----- One domain -----

  lemma CountOne<T>(x: T, p: T -> bool)
    ensures Count([x], p) == if p(x) then 1 else 0
  {
    assert |[x][1..]| == 0;
  }

  lemma OneMore(fs: seq<Flow>, f: Flow)
    ensures forall k :: Of(fs + [f], k) == Of(fs, k) + if KindOf(f.score) == k then 1 else 0
    ensures Filter(fs + [f], Is(Outside)) == Filter(fs, Is(Outside)) + if KindOf(f.score) == Outside then [f] else []
  {
    forall k ensures Of(fs + [f], k) == Of(fs, k) + if KindOf(f.score) == k then 1 else 0 {
      CountConcat(fs, [f], Is(k));
      CountOne(f, Is(k));
    }
    FilterConcat(fs, [f], Is(Outside));
    assert Filter([f], Is(Outside)) == if KindOf(f.score) == Outside then [f] else [];
  }

  method ClassifyFlows(flows: seq<Flow>) returns (afhankelijk: seq<Flow>, unanswered: nat, answered: nat)
    ensures afhankelijk == Filter(flows, Is(Outside))
    ensures unanswered == Of(flows, Unknown) && answered == Of(flows, Inside) + Of(flows, Blank)
  {
    afhankelijk, unanswered, answered := [], 0, 0;
    for i := 0 to |flows|
      invariant afhankelijk == Filter(flows[..i], Is(Outside))
      invariant unanswered == Of(flows[..i], Unknown) && answered == Of(flows[..i], Inside) + Of(flows[..i], Blank)
    {
      PrefixStep(flows, i);
      OneMore(flows[..i], flows[i]);
      match flows[i].score {
        case Afhankelijk => afhankelijk := afhankelijk + [flows[i]];
        case Onbekend => unanswered := unanswered + 1;
        case _ => answered := answered + 1;
      }
    }
    assert flows[..|flows|] == flows;
  }

  function Outsiders(flows: seq<Flow>): seq<Flow> {
    Filter(flows, Is(Outside))
  }

  lemma {:induction false} KindsPartition(fs: seq<Flow>)
    ensures Of(fs, Outside) + Of(fs, Unknown) + Of(fs, Blank) + Of(fs, Inside) == |fs|
    ensures |Outsiders(fs)| == Of(fs, Outside)
  {
    if fs != [] {
      KindsPartition(fs[1..]);
    }
  }

  datatype FleetScore = FleetScore(x: nat, n: nat, unanswered: nat, worstFlow: string)

  function FleetScoreOf(flows: seq<Flow>): FleetScore {
    var x := Of(flows, Inside) + Of(flows, Blank);
    FleetScore(x, x + |Outsiders(flows)|, Of(flows, Unknown),
               if Outsiders(flows) == [] then "" else Outsiders(flows)[0].title)
  }

  method BuildFleetScore(assessments: seq<Assessment>) returns (score: FleetScore)
    ensures score == FleetScoreOf(FlowsOf(assessments))
  {
    hide FlowsOf;
    var flows := SovereigntyFlows(assessments);
    var afhankelijk, unanswered, answered := ClassifyFlows(flows);
    score := FleetScore(answered, answered + |afhankelijk|, unanswered, "");
    if |afhankelijk| > 0 {
      score := score.(worstFlow := afhankelijk[0].title);
    }
  }

  lemma TitledFlows(assessments: seq<Assessment>)
    ensures forall f :: f in FlowsOf(assessments) ==> Titled(FLOW_RULES, f.title)
  {
    FlowsTitled(AllEntries(assessments), FLOW_RULES);
  }

  lemma OutsidersLead(fs: seq<Flow>)
    ensures Outsiders(fs) != [] <==> exists f :: f in fs && f.score == Afhankelijk
    ensures forall f :: f in Outsiders(fs) ==> f in fs
  {
    if f :| f in fs && f.score == Afhankelijk {
      FilterHas(fs, Is(Outside), f);
    }
    if Outsiders(fs) != [] {
      var f := Outsiders(fs)[0];
      assert f in fs && Is(Outside)(f);
    }
  }

  lemma TitlesNotEmpty()
    ensures forall t :: Titled(FLOW_RULES, t) ==> t != ""
  {
  }

  /** The domain has at least one afhankelijk flow. */
  predicate HasOpen(fs: seq<Flow>) {
    exists f :: f in fs && f.score == Afhankelijk
  }

  /** A score accounts for every flow once, and names an open finding exactly when there is one. */
  lemma FleetScoreLaws(assessments: seq<Assessment>)
    ensures var fs, s := FlowsOf(assessments), FleetScoreOf(FlowsOf(assessments));
            && s.n + s.unanswered == |fs|
            && s.n == s.x + Of(fs, Outside)
            && (s.worstFlow != "" <==> s.x < s.n)
            && (s.worstFlow != "" <==> HasOpen(fs))
  {
    hide FlowsOf;
    var fs := FlowsOf(assessments);
    KindsPartition(fs);
    OutsidersLead(fs);
    if Outsiders(fs) != [] {
      assert Titled(FLOW_RULES, Outsiders(fs)[0].title) by { TitledFlows(assessments); }
      TitlesNotEmpty();
    }
  }

  datatype Verdict = Ja | Nee | VerdictOnbekend

  datatype AnswerVerdict = AnswerVerdict(verdict: Verdict, unanswered: nat, decidingFlow: string)

  /** The answer page reads a scan as the fleet screen does: nee below n of n, ja at n of n, onbekend at 0 of 0. */
  method BuildAnswerVerdict(assessments: seq<Assessment>) returns (a: AnswerVerdict)
    ensures var s := FleetScoreOf(FlowsOf(assessments));
            && (a.verdict == Nee <==> s.x < s.n)
            && (a.verdict == Ja <==> 0 < s.x == s.n)
            && (a.verdict == VerdictOnbekend <==> s.n == 0)
            && a.unanswered == s.unanswered && a.decidingFlow == s.worstFlow
  {
    hide FlowsOf;
    var flows := SovereigntyFlows(assessments);
    var afhankelijk, unanswered, answered := ClassifyFlows(flows);
    if |afhankelijk| > 0 {
      return AnswerVerdict(Nee, unanswered, afhankelijk[0].title);
    }
    if answered > 0 && unanswered == 0 {
      return AnswerVerdict(Ja, 0, "");
    }
    a := AnswerVerdict(if answered > 0 then Ja else VerdictOnbekend, unanswered, "");
  }

  // ----- The fleet, by flow -----

  /** One row of the per-flow distribution. */
  datatype Row = Row(title: string, total: nat, afhankelijk: nat, onbekend: nat, worst: Score)

  function Severity(s: Score): nat {
    match s
    case Afhankelijk => 3
    case Voldoende => 2
    case Soeverein => 1
    case _ => 0
  }

  /** One flow entering its row. */
  function Enter(r: Row, f: Flow): Row {
    Row(r.title, r.total + 1,
        r.afhankelijk + if f.score == Afhankelijk then 1 else 0,
        r.onbekend + if f.score == Onbekend || f.score == BLANK then 1 else 0,
        if Severity(f.score) > Severity(r.worst) then f.score else r.worst)
  }

  /** The row a title gets from fs. */
  predicate IsRow(r: Row, fs: seq<Flow>, t: string) {
    && r.title == t
    && r.afhankelijk == At(fs, t, Outside)
    && r.onbekend == At(fs, t, Unknown) + At(fs, t, Blank)
    && r.total == r.afhankelijk + r.onbekend + At(fs, t, Inside)
    && (forall f :: f in fs && f.title == t ==> Severity(f.score) <= Severity(r.worst))
    && (r.worst == BLANK || Flow(t, r.worst) in fs)
  }

  lemma EnterRow(r: Row, fs: seq<Flow>, f: Flow, t: string)
    requires IsRow(r, fs, t)
    ensures IsRow(if f.title == t then Enter(r, f) else r, fs + [f], t)
  {
    forall k ensures At(fs + [f], t, k) == At(fs, t, k) + if f.title == t && KindOf(f.score) == k then 1 else 0 {
      CountConcat(fs, [f], IsAt(t, k));
      CountOne(f, IsAt(t, k));
    }
    if f.title == t && Severity(f.score) > Severity(r.worst) {
      assert Flow(t, f.score) in fs + [f];
    }
  }

  /** acc holds the row of every title seen so far. */
  predicate Tallies(acc: map<string, Row>, fs: seq<Flow>) {
    && (forall t :: t in acc ==> IsRow(acc[t], fs, t))
    && (forall f :: f in fs ==> f.title in acc)
    && (forall t :: t in acc ==> acc[t].total > 0)
  }

  function RowIn(acc: map<string, Row>, t: string): Row {
    if t in acc then acc[t] else Row(t, 0, 0, 0, BLANK)
  }

  lemma EmptyRow(fs: seq<Flow>, t: string)
    requires forall f :: f in fs ==> f.title != t
    ensures IsRow(Row(t, 0, 0, 0, BLANK), fs, t)
  {
    forall k ensures At(fs, t, k) == 0 {
      CountPositive(fs, IsAt(t, k));
    }
  }

  lemma TallyOne(acc: map<string, Row>, fs: seq<Flow>, f: Flow)
    requires Tallies(acc, fs)
    ensures Tallies(acc[f.title := Enter(RowIn(acc, f.title), f)], fs + [f])
  {
    hide IsRow;
    var out := acc[f.title := Enter(RowIn(acc, f.title), f)];
    if f.title !in acc {
      EmptyRow(fs, f.title);
    }
    forall t | t in out ensures IsRow(out[t], fs + [f], t) {
      EnterRow(RowIn(acc, t), fs, f, t);
    }
  }

  method TallyFlows(acc: map<string, Row>, ghost seen: seq<Flow>, flows: seq<Flow>) returns (out: map<string, Row>)
    requires Tallies(acc, seen)
    ensures Tallies(out, seen + flows)
  {
    hide Tallies;
    out := acc;
    assert seen + flows[..0] == seen;
    for i := 0 to |flows|
      invariant Tallies(out, seen + flows[..i])
    {
      var f := flows[i];
      assert seen + flows[..i + 1] == seen + flows[..i] + [f];
      TallyOne(out, seen + flows[..i], f);
      out := out[f.title := Enter(RowIn(out, f.title), f)];
    }
    assert flows[..|flows|] == flows;
  }

  predicate HasTitle(fs: seq<Flow>, t: string) {
    exists f :: f in fs && f.title == t
  }

  /** One row per flow rule that some flow bears the title of, in rule order. */
  predicate IsRollup(rows: seq<Row>, fs: seq<Flow>, rules: seq<FlowRule>)
    decreases |rules|
  {
    if rules == [] then rows == []
    else if HasTitle(fs, rules[0].title) then
      rows != [] && IsRow(rows[0], fs, rules[0].title) && IsRollup(rows[1..], fs, rules[1..])
    else IsRollup(rows, fs, rules[1..])
  }

  lemma RowHasFlow(r: Row, fs: seq<Flow>, t: string)
    requires IsRow(r, fs, t) && r.total > 0
    ensures HasTitle(fs, t)
  {
    if !HasTitle(fs, t) {
      EmptyRow(fs, t);
    }
  }

  method CollectRows(acc: map<string, Row>, ghost fs: seq<Flow>, rules: seq<FlowRule>) returns (rows: seq<Row>)
    requires Tallies(acc, fs)
    ensures IsRollup(rows, fs, rules)
  {
    hide IsRow;
    rows := [];
    for i := |rules| downto 0
      invariant IsRollup(rows, fs, rules[i..])
    {
      assert rules[i..][1..] == rules[i + 1..];
      if rules[i].title in acc {
        RowHasFlow(acc[rules[i].title], fs, rules[i].title);
        assert ([acc[rules[i].title]] + rows)[1..] == rows;
        rows := [acc[rules[i].title]] + rows;
      }
    }
  }

  /** The flows each list of assessments yields. */
  function FlowsOfEach(xss: seq<seq<Assessment>>): (ds: seq<seq<Flow>>)
    ensures |ds| == |xss|
  {
    if xss == [] then [] else [FlowsOf(xss[0])] + FlowsOfEach(xss[1..])
  }

  lemma NothingTallied()
    ensures Tallies(map[], [])
  {
  }

  /** orders gives, per snapshot, the order in which its map of assessments is visited. */
  method SovereigntyFlowRollup(orders: seq<seq<Assessment>>) returns (rows: seq<Row>)
    ensures IsRollup(rows, Flatten(FlowsOfEach(orders)), FLOW_RULES)
  {
    hide FlowsOf, Tallies, IsRollup;
    var acc: map<string, Row> := map[];
    ghost var seen: seq<Flow> := [];
    NothingTallied();
    for i := 0 to |orders|
      invariant Tallies(acc, seen) && seen + Flatten(FlowsOfEach(orders[i..])) == Flatten(FlowsOfEach(orders))
    {
      var flows := SovereigntyFlows(orders[i]);
      acc := TallyFlows(acc, seen, flows);
      assert orders[i..][1..] == orders[i + 1..];
      assert seen + (flows + Flatten(FlowsOfEach(orders[i + 1..]))) ==
        (seen + flows) + Flatten(FlowsOfEach(orders[i + 1..]));
      seen := seen + flows;
    }
    assert seen == seen + Flatten(FlowsOfEach(orders[|orders|..]));
    rows := CollectRows(acc, seen, FLOW_RULES);
  }

  // ----- The fleet, by domain -----

  datatype ScanStatus = ScanComplete | ScanPartial | ScanOther(text: string)

  /** A target's latest scan, with the values of its map of assessments. */
  datatype Snapshot = Snapshot(status: ScanStatus, assessments: multiset<Assessment>)

  /** One way to iterate every snapshot's map. */
  predicate Orders(snaps: seq<Snapshot>, orders: seq<seq<Assessment>>) {
    |orders| == |snaps| && forall i :: 0 <= i < |snaps| ==> multiset(orders[i]) == snaps[i].assessments
  }

  /** The orders of the snapshots whose scan completed, wholly or partly. */
  function Completed(snaps: seq<Snapshot>, orders: seq<seq<Assessment>>): (r: seq<seq<Assessment>>)
    requires |orders| == |snaps|
    ensures |r| <= |snaps|
  {
    if snaps == [] then []
    else (if snaps[0].status.ScanOther? then [] else [orders[0]]) + Completed(snaps[1..], orders[1..])
  }

  /** The flows of each scored domain. */
  function Scored(snaps: seq<Snapshot>, orders: seq<seq<Assessment>>): seq<seq<Flow>>
    requires |orders| == |snaps|
  {
    FlowsOfEach(Completed(snaps, orders))
  }

  datatype Summary = Summary(x: nat, n: nat, unanswered: nat, domainsWithoutScan: nat, notSovereign: nat)

  function IsOpen(): seq<Flow> -> bool {
    (fs: seq<Flow>) => HasOpen(fs)
  }

  /** The sums over scored domains of their scores. */
  predicate Sums(s: Summary, ds: seq<seq<Flow>>, all: nat) {
    && s.x == Of(Flatten(ds), Inside) + Of(Flatten(ds), Blank)
    && s.n == s.x + Of(Flatten(ds), Outside)
    && s.unanswered == Of(Flatten(ds), Unknown)
    && s.notSovereign == Count(ds, IsOpen())
    && s.domainsWithoutScan + |ds| == all
  }

  lemma FlatGrow(ds: seq<seq<Flow>>, fs: seq<Flow>, k: Kind)
    ensures Of(Flatten(ds + [fs]), k) == Of(Flatten(ds), k) + Of(fs, k)
  {
    FlattenConcat(ds, [fs]);
    assert Flatten([fs]) == fs by { assert fs + Flatten([fs][1..]) == fs; }
    CountConcat(Flatten(ds), fs, Is(k));
  }

  lemma SumsGrow(s: Summary, ds: seq<seq<Flow>>, all: nat, fs: seq<Flow>)
    requires Sums(s, ds, all) && (FleetScoreOf(fs).worstFlow != "" <==> HasOpen(fs))
    ensures var f := FleetScoreOf(fs);
            Sums(Summary(s.x + f.x, s.n + f.n, s.unanswered + f.unanswered, s.domainsWithoutScan,
                         s.notSovereign + if f.worstFlow != "" then 1 else 0), ds + [fs], all + 1)
  {
    hide Of, Outsiders, Flatten, HasOpen;
    FlatGrow(ds, fs, Outside);
    FlatGrow(ds, fs, Unknown);
    FlatGrow(ds, fs, Blank);
    FlatGrow(ds, fs, Inside);
    KindsPartition(fs);
    CountConcat(ds, [fs], IsOpen());
    CountOne(fs, IsOpen());
  }

  lemma NoneLeft(ds: seq<seq<Flow>>, scored: seq<seq<Assessment>>, snaps: seq<Snapshot>,
                 first: seq<seq<Assessment>>, second: seq<seq<Assessment>>)
    requires |snaps| == |first| == |second| == 0
    ensures ds + Scored(snaps, first) == ds && scored + Completed(snaps, second) == scored
  {
  }

  lemma NothingSummed()
    ensures Sums(Summary(0, 0, 0, 0, 0), [], 0)
  {
    assert Flatten<Flow>([]) == [];
    hide Flatten, HasOpen;
  }

  lemma NotScored(s: Summary, ds: seq<seq<Flow>>, all: nat)
    requires Sums(s, ds, all)
    ensures Sums(s.(domainsWithoutScan := s.domainsWithoutScan + 1), ds, all + 1)
  {
  }

  lemma CompletedNext(snaps: seq<Snapshot>, orders: seq<seq<Assessment>>, i: nat)
    requires |orders| == |snaps| && i < |snaps|
    ensures Completed(snaps[i..], orders[i..]) ==
            (if snaps[i].status.ScanOther? then [] else [orders[i]]) + Completed(snaps[i + 1..], orders[i + 1..])
  {
    assert snaps[i..][1..] == snaps[i + 1..] && orders[i..][1..] == orders[i + 1..];
  }

  lemma ScoredNext(snaps: seq<Snapshot>, orders: seq<seq<Assessment>>, i: nat)
    requires |orders| == |snaps| && i < |snaps|
    ensures Scored(snaps[i..], orders[i..]) ==
            (if snaps[i].status.ScanOther? then [] else [FlowsOf(orders[i])]) + Scored(snaps[i + 1..], orders[i + 1..])
  {
    hide FlowsOf;
    CompletedNext(snaps, orders, i);
    var rest := Completed(snaps[i + 1..], orders[i + 1..]);
    assert ([orders[i]] + rest)[1..] == rest;
    assert [] + rest == rest;
    assert [] + FlowsOfEach(rest) == FlowsOfEach(rest);
  }

  /** The two loops may visit each map in different orders: first for the scores, second for the rollup. */
  method BuildFleetSummary(snaps: seq<Snapshot>, first: seq<seq<Assessment>>, second: seq<seq<Assessment>>)
    returns (out: Summary, flows: seq<Row>)
    requires Orders(snaps, first) && Orders(snaps, second)
    ensures Sums(out, Scored(snaps, first), |snaps|)
    ensures IsRollup(flows, Flatten(Scored(snaps, second)), FLOW_RULES)
  {
    hide Sums, FlowsOf, IsRollup, Completed, FleetScoreOf, HasOpen;
    out := Summary(0, 0, 0, 0, 0);
    var scored: seq<seq<Assessment>> := [];
    ghost var ds: seq<seq<Flow>> := [];
    NothingSummed();
    for i := 0 to |snaps|
      invariant Sums(out, ds, i)
      invariant ds + Scored(snaps[i..], first[i..]) == Scored(snaps, first)
      invariant scored + Completed(snaps[i..], second[i..]) == Completed(snaps, second)
    {
      ScoredNext(snaps, first, i);
      CompletedNext(snaps, second, i);
      if snaps[i].status.ScanOther? {
        NotScored(out, ds, i);
        out := out.(domainsWithoutScan := out.domainsWithoutScan + 1);
      } else {
        scored := scored + [second[i]];
        var fs := BuildFleetScore(first[i]);
        FleetScoreLaws(first[i]);
        SumsGrow(out, ds, i, FlowsOf(first[i]));
        ds := ds + [FlowsOf(first[i])];
        out := out.(x := out.x + fs.x, n := out.n + fs.n, unanswered := out.unanswered + fs.unanswered);
        if fs.worstFlow != "" {
          out := out.(notSovereign := out.notSovereign + 1);
        }
      }
    }
    NoneLeft(ds, scored, snaps[|snaps|..], first[|snaps|..], second[|snaps|..]);
    flows := SovereigntyFlowRollup(scored);
  }

  // ----- Rows equal columns -----

  function SumAfhankelijk(rows: seq<Row>): nat {
    if rows == [] then 0 else rows[0].afhankelijk + SumAfhankelijk(rows[1..])
  }

  function SumOnbekend(rows: seq<Row>): nat {
    if rows == [] then 0 else rows[0].onbekend + SumOnbekend(rows[1..])
  }

  /** BuildFlowBars' third segment: what is neither outside nor unknown. */
  function SumInEEA(rows: seq<Row>): int {
    if rows == [] then 0 else rows[0].total - rows[0].afhankelijk - rows[0].onbekend + SumInEEA(rows[1..])
  }

  function SumAt(fs: seq<Flow>, rules: seq<FlowRule>, k: Kind): nat {
    if rules == [] then 0 else At(fs, rules[0].title, k) + SumAt(fs, rules[1..], k)
  }

  lemma {:induction false} RowsSum(rows: seq<Row>, fs: seq<Flow>, rules: seq<FlowRule>)
    requires IsRollup(rows, fs, rules)
    ensures SumAfhankelijk(rows) == SumAt(fs, rules, Outside)
    ensures SumOnbekend(rows) == SumAt(fs, rules, Unknown) + SumAt(fs, rules, Blank)
    ensures SumInEEA(rows) == SumAt(fs, rules, Inside)
    decreases |rules|
  {
    if rules != [] {
      if HasTitle(fs, rules[0].title) {
        RowsSum(rows[1..], fs, rules[1..]);
      } else {
        RowsSum(rows, fs, rules[1..]);
        EmptyRow(fs, rules[0].title);
      }
    }
  }

  /** A flow counts under one title: its own. */
  lemma {:induction false} OneTitle(f: Flow, fs: seq<Flow>, rules: seq<FlowRule>, k: Kind)
    requires DistinctTitles(rules)
    ensures SumAt([f] + fs, rules, k) ==
            SumAt(fs, rules, k) + if Titled(rules, f.title) && KindOf(f.score) == k then 1 else 0
    decreases |rules|
  {
    if rules != [] {
      OneTitle(f, fs, rules[1..], k);
      assert ([f] + fs)[1..] == fs;
      assert rules == [rules[0]] + rules[1..];
      assert Titled(rules[1..], rules[0].title) ==> false;
    }
  }

  lemma {:induction false} NothingAt(rules: seq<FlowRule>, k: Kind)
    ensures SumAt([], rules, k) == 0
  {
    if rules != [] {
      NothingAt(rules[1..], k);
    }
  }

  /** Titles partition the flows. */
  lemma {:induction false} TitlesPartition(fs: seq<Flow>, rules: seq<FlowRule>, k: Kind)
    requires DistinctTitles(rules) && forall f :: f in fs ==> Titled(rules, f.title)
    ensures SumAt(fs, rules, k) == Of(fs, k)
  {
    if fs == [] {
      NothingAt(rules, k);
    } else {
      TitlesPartition(fs[1..], rules, k);
      OneTitle(fs[0], fs[1..], rules, k);
      assert fs == [fs[0]] + fs[1..];
    }
  }

  /** Each scored domain's assessments agree on the flow rules, so map order does not show. */
  predicate AllAgree(snaps: seq<Snapshot>) {
    forall s :: s in snaps && !s.status.ScanOther? ==> Agree(s.assessments, FLOW_RULES)
  }

  lemma SameFlows(xs: multiset<Assessment>, p: seq<Assessment>, q: seq<Assessment>)
    requires Agree(xs, FLOW_RULES) && multiset(p) == xs && multiset(q) == xs
    ensures FlowsOf(p) == FlowsOf(q)
  {
    FlowTitlesDistinct();
    AgreeingOrders(xs, FLOW_RULES, p, q);
  }

  lemma RestOrders(snaps: seq<Snapshot>, orders: seq<seq<Assessment>>)
    requires snaps != [] && Orders(snaps, orders)
    ensures Orders(snaps[1..], orders[1..]) && multiset(orders[0]) == snaps[0].assessments
  {
  }

  lemma RestAgrees(snaps: seq<Snapshot>, p: seq<Assessment>, q: seq<Assessment>)
    requires snaps != [] && AllAgree(snaps) && multiset(p) == multiset(q) == snaps[0].assessments
    ensures AllAgree(snaps[1..])
    ensures !snaps[0].status.ScanOther? ==> FlowsOf(p) == FlowsOf(q)
  {
    hide Agree, FlowsOf;
    if !snaps[0].status.ScanOther? {
      SameFlows(snaps[0].assessments, p, q);
    }
  }

  lemma {:induction false} OrderDoesNotShow(snaps: seq<Snapshot>, first: seq<seq<Assessment>>,
                                            second: seq<seq<Assessment>>)
    requires Orders(snaps, first) && Orders(snaps, second) && AllAgree(snaps)
    ensures Scored(snaps, first) == Scored(snaps, second)
    decreases |snaps|
  {
    if snaps != [] {
      RestOrders(snaps, first);
      RestOrders(snaps, second);
      hide FlowsOf, AllAgree, Scored, Completed, Orders;
      RestAgrees(snaps, first[0], second[0]);
      ScoredNext(snaps, first, 0);
      ScoredNext(snaps, second, 0);
      assert snaps[0..] == snaps && first[0..] == first && second[0..] == second;
      OrderDoesNotShow(snaps[1..], first[1..], second[1..]);
    }
  }

  lemma {:induction false} ScoredTitled(xss: seq<seq<Assessment>>)
    ensures forall f :: f in Flatten(FlowsOfEach(xss)) ==> Titled(FLOW_RULES, f.title)
  {
    if xss != [] {
      ScoredTitled(xss[1..]);
      FlowsTitled(AllEntries(xss[0]), FLOW_RULES);
    }
  }

  predicate SomeBlank(ds: seq<seq<Flow>>) {
    exists f :: f in Flatten(ds) && f.score == BLANK
  }

  predicate AllTitled(fs: seq<Flow>, rules: seq<FlowRule>) {
    forall f :: f in fs ==> Titled(rules, f.title)
  }

  lemma ScoredAreTitled(snaps: seq<Snapshot>, orders: seq<seq<Assessment>>)
    requires |orders| == |snaps|
    ensures AllTitled(Flatten(Scored(snaps, orders)), FLOW_RULES)
  {
    ScoredTitled(Completed(snaps, orders));
  }

  lemma RowsTotal(rows: seq<Row>, fs: seq<Flow>, rules: seq<FlowRule>)
    requires IsRollup(rows, fs, rules) && DistinctTitles(rules) && AllTitled(fs, rules)
    ensures SumAfhankelijk(rows) == Of(fs, Outside) && SumInEEA(rows) == Of(fs, Inside)
    ensures SumOnbekend(rows) == Of(fs, Unknown) + Of(fs, Blank)
  {
    RowsSum(rows, fs, rules);
    forall k ensures SumAt(fs, rules, k) == Of(fs, k) {
      TitlesPartition(fs, rules, k);
    }
  }

  lemma BlankCount(ds: seq<seq<Flow>>)
    ensures Of(Flatten(ds), Blank) > 0 <==> SomeBlank(ds)
  {
    CountPositive(Flatten(ds), Is(Blank));
    assert forall f: Flow :: Is(Blank)(f) <==> f.score == BLANK;
    if SomeBlank(ds) {
      var f :| f in Flatten(ds) && f.score == BLANK;
      assert Is(Blank)(f);
    }
  }

  lemma Columns(ds: seq<seq<Flow>>, rules: seq<FlowRule>, rows: seq<Row>, s: Summary, all: nat)
    requires DistinctTitles(rules) && AllTitled(Flatten(ds), rules)
    requires Sums(s, ds, all) && IsRollup(rows, Flatten(ds), rules)
    ensures SumAfhankelijk(rows) == s.n - s.x
    ensures SumOnbekend(rows) == s.unanswered <==> !SomeBlank(ds)
    ensures SumInEEA(rows) == s.x <==> !SomeBlank(ds)
  {
    hide IsRollup, SomeBlank, Of, Flatten, DistinctTitles, Titled;
    RowsTotal(rows, Flatten(ds), rules);
    BlankCount(ds);
  }

  /**
   * The rows of the per-flow table and the fleet's totals are two counts of the same flows: what is outside the EEA
   * always agrees, and the other two columns agree exactly when no flow carries the empty score.
   */
  lemma RowsEqualColumns(snaps: seq<Snapshot>, first: seq<seq<Assessment>>, second: seq<seq<Assessment>>,
                         s: Summary, rows: seq<Row>)
    requires Orders(snaps, first) && Orders(snaps, second) && AllAgree(snaps)
    requires Sums(s, Scored(snaps, first), |snaps|) && IsRollup(rows, Flatten(Scored(snaps, second)), FLOW_RULES)
    ensures SumAfhankelijk(rows) == s.n - s.x
    ensures SumOnbekend(rows) == s.unanswered <==> !SomeBlank(Scored(snaps, first))
    ensures SumInEEA(rows) == s.x <==> !SomeBlank(Scored(snaps, first))
  {
    hide AllAgree, IsRollup, SomeBlank, Sums, Scored, Flatten, DistinctTitles, AllTitled;
    OrderDoesNotShow(snaps, first, second);
    FlowTitlesDistinct();
    ScoredAreTitled(snaps, first);
    Columns(Scored(snaps, first), FLOW_RULES, rows, s, |snaps|);
  }

  /** The domains in which a flow of kind k bears title t. */
  function Shows(t: string, k: Kind): seq<Flow> -> bool {
    (fs: seq<Flow>) => At(fs, t, k) > 0
  }

  lemma FlowsFrom1(rs: seq<Rationale>, rules: seq<FlowRule>, t: string, k: Kind)
    requires rules != []
    ensures At(FlowsFrom(rs, rules), t, k) <= At(FlowsFrom(rs, rules[1..]), t, k) + if rules[0].title == t then 1 else 0
  {
    var rest := FlowsFrom(rs, rules[1..]);
    assert [] + rest == rest;
    match Last(rs, rules[0].id)
    case None =>
    case Some(r) => assert ([Flow(rules[0].title, r.score)] + rest)[1..] == rest;
  }

  lemma {:induction false} TitleOnce(rs: seq<Rationale>, rules: seq<FlowRule>, t: string, k: Kind)
    requires DistinctTitles(rules)
    ensures At(FlowsFrom(rs, rules), t, k) <= 1
    decreases |rules|
  {
    if rules != [] {
      var rest := FlowsFrom(rs, rules[1..]);
      TitleOnce(rs, rules[1..], t, k);
      FlowsTitled(rs, rules[1..]);
      CountPositive(rest, IsAt(t, k));
      FlowsFrom1(rs, rules, t, k);
    }
  }

  /** A row counts domains: every scored domain enters it at most once. */
  lemma {:induction false} RowsCountDomains(xss: seq<seq<Assessment>>, t: string, k: Kind)
    ensures At(Flatten(FlowsOfEach(xss)), t, k) == Count(FlowsOfEach(xss), Shows(t, k))
  {
    if xss != [] {
      RowsCountDomains(xss[1..], t, k);
      FlowTitlesDistinct();
      TitleOnce(AllEntries(xss[0]), FLOW_RULES, t, k);
      CountConcat(FlowsOf(xss[0]), Flatten(FlowsOfEach(xss[1..])), IsAt(t, k));
    }
  }
}
