/** The concern table and the per-flow table, coded apart in internal/ui/aggregate.go and internal/ui/flows.go. */
module Screens {
  import opened Sequences
  import opened Assessments
  import Flows
  import Fleet
  import A = Aggregate

  /** order lists the values of a target's map of assessments. */
  predicate Lists(order: seq<Assessment>, t: A.Target) {
    && (forall fw :: fw in t.assessments ==> t.assessments[fw] in order)
    && (forall a :: a in order ==> exists fw :: fw in t.assessments && t.assessments[fw] == a)
  }

  /** What fw's assessment of t says about rule id. */
  function Lines(t: A.Target, fw: string): seq<Rationale> {
    if fw in t.assessments then Flows.Entries(t.assessments[fw].dimensions) else []
  }

  predicate Mentions(rs: seq<Rationale>, id: string) {
    exists r :: r in rs && r.rule == id
  }

  /** Only framework fw knows rule id, in every target. */
  predicate KnownTo(ts: seq<A.Target>, fw: string, id: string) {
    forall t, g :: t in ts && g in t.assessments && g != fw ==> !Mentions(Lines(t, g), id)
  }

  /** Some rationale of the rule is afhankelijk: what the concern table counts. */
  predicate AnyFails(t: A.Target, fw: string, id: string) {
    exists r :: r in Lines(t, fw) && r.rule == id && r.score == Afhankelijk
  }

  /** The rule's last rationale is afhankelijk: what the flow shows. */
  predicate LastFails(t: A.Target, fw: string, id: string) {
    var last := Flows.Last(Lines(t, fw), id);
    last.Some? && last.value.score == Afhankelijk
  }

  function CountsIn(fw: string, id: string): A.Target -> bool {
    (t: A.Target) => AnyFails(t, fw, id)
  }

  function ShowsIn(fw: string, id: string): A.Target -> bool {
    (t: A.Target) => LastFails(t, fw, id)
  }

  predicate DistinctIds(ts: seq<A.Target>) {
    forall i, j :: 0 <= i < j < |ts| ==> ts[i].id != ts[j].id
  }

  predicate NoBars(ts: seq<A.Target>) {
    forall t, fw :: t in ts && fw in t.assessments ==> '|' !in fw
  }

  // ----- The concern table's count -----

  function IdsWhere(ts: seq<A.Target>, p: A.Target -> bool): set<string> {
    set t | t in ts && p(t) :: t.id
  }

  function FailingIds(ts: seq<A.Target>, fw: string, id: string): set<string> {
    IdsWhere(ts, CountsIn(fw, id))
  }

  lemma IdsStep(ts: seq<A.Target>, p: A.Target -> bool)
    requires ts != []
    ensures IdsWhere(ts, p) == IdsWhere(ts[1..], p) + if p(ts[0]) then {ts[0].id} else {}
  {
    assert ts == [ts[0]] + ts[1..];
  }

  lemma {:induction false} IdsCount(ts: seq<A.Target>, p: A.Target -> bool)
    requires DistinctIds(ts)
    ensures |IdsWhere(ts, p)| == Count(ts, p)
  {
    if ts != [] {
      var rest := IdsWhere(ts[1..], p);
      IdsCount(ts[1..], p);
      assert ts[0].id !in rest;
      IdsStep(ts, p);
    }
  }

  lemma EntryOfRule(ts: seq<A.Target>, fw: string, id: string, e: A.Entry)
    requires e in A.AllEntries(ts) && NoBars(ts) && '|' !in fw
    requires A.Topic(A.Ref(fw, id)) != A.CERT_TOPIC && A.Topic(e.ref) == A.Topic(A.Ref(fw, id))
    ensures e.ref == A.Ref(fw, id)
  {
    var t :| t in ts && e in A.EntriesUnder(t, t.assessments.Keys);
    var g :| g in t.assessments && e in A.EntriesOf(t.id, g, Flows.Entries(t.assessments[g].dimensions));
    A.TopicsMerge(e.ref, A.Ref(fw, id));
  }

  lemma EntryFails(ts: seq<A.Target>, fw: string, id: string, e: A.Entry)
    requires e in A.AllEntries(ts) && e.ref == A.Ref(fw, id) && e.afhankelijk
    ensures e.target in FailingIds(ts, fw, id)
  {
    var t :| t in ts && e in A.EntriesUnder(t, t.assessments.Keys);
    var g :| g in t.assessments && e in A.EntriesOf(t.id, g, Flows.Entries(t.assessments[g].dimensions));
    var r :| r in Flows.Entries(t.assessments[g].dimensions) && e == A.EntryOf(t.id, g, r);
    assert r in Lines(t, fw);
    assert AnyFails(t, fw, id);
  }

  lemma FailsEntry(ts: seq<A.Target>, t: A.Target, fw: string, id: string)
    requires t in ts && AnyFails(t, fw, id)
    ensures A.Entry(t.id, A.Ref(fw, id), true) in A.AllEntries(ts)
  {
    var r :| r in Lines(t, fw) && r.rule == id && r.score == Afhankelijk;
    assert A.EntryOf(t.id, fw, r) in A.EntriesOf(t.id, fw, Flows.Entries(t.assessments[fw].dimensions));
    assert A.EntryOf(t.id, fw, r) in A.EntriesUnder(t, t.assessments.Keys);
  }

  lemma FailingAreIds(ts: seq<A.Target>, fw: string, id: string)
    requires NoBars(ts) && '|' !in fw && A.Topic(A.Ref(fw, id)) != A.CERT_TOPIC
    ensures A.Failing(A.AllEntries(ts), A.Topic(A.Ref(fw, id))) == FailingIds(ts, fw, id)
  {
    var es, ref := A.AllEntries(ts), A.Ref(fw, id);
    hide A.Topic;
    forall x | x in A.Failing(es, A.Topic(ref)) ensures x in FailingIds(ts, fw, id) {
      var e :| e in es && A.Topic(e.ref) == A.Topic(ref) && e.afhankelijk && e.target == x;
      EntryOfRule(ts, fw, id, e);
      EntryFails(ts, fw, id, e);
    }
    forall x | x in FailingIds(ts, fw, id) ensures x in A.Failing(es, A.Topic(ref)) {
      var t :| t in ts && AnyFails(t, fw, id) && t.id == x;
      assert A.Entry(t.id, ref, true) in es by { FailsEntry(ts, t, fw, id); }
    }
  }

  // ----- The flow table's count -----

  lemma {:induction false} LastMentioned(rs: seq<Rationale>, id: string)
    ensures Flows.Last(rs, id).Some? <==> Mentions(rs, id)
  {
    if rs != [] {
      var rest, last := rs[..|rs| - 1], rs[|rs| - 1];
      LastMentioned(rest, id);
      assert rs == rest + [last];
      assert last in rs;
    }
  }

  /** The only framework that knows the rule decides what all assessments say of it. */
  lemma OneFrameworkDecides(t: A.Target, order: seq<Assessment>, fw: string, id: string)
    requires Lists(order, t) && KnownTo([t], fw, id)
    ensures Flows.ScoreOf(Flows.Last(Flows.AllEntries(order), id)) == Flows.ScoreOf(Flows.Last(Lines(t, fw), id))
  {
    hide Flows.Entries, Flows.AllEntries, Flows.Last;
    LastMentioned(Lines(t, fw), id);
    if Flows.Last(Flows.AllEntries(order), id).Some? {
      var a := Flows.LastComesFrom(order, id);
      var g :| g in t.assessments && t.assessments[g] == a;
      LastMentioned(Lines(t, g), id);
      assert t in [t] && g == fw;
    } else if fw in t.assessments && Flows.Last(Lines(t, fw), id).Some? {
      Flows.LastIsKnown(order, t.assessments[fw], id);
    }
  }

  lemma SkipHead(fs: seq<Flows.Flow>, rest: seq<Flows.Flow>, score: Option<Score>, head: string, title: string)
    requires Flows.Headed(fs, rest, score, head) && head != title
    ensures Fleet.At(fs, title, Fleet.Outside) == Fleet.At(rest, title, Fleet.Outside)
  {
    if score.Some? {
      assert fs[1..] == rest;
    } else {
      assert fs == rest;
    }
  }

  lemma OwnHead(fs: seq<Flows.Flow>, rest: seq<Flows.Flow>, score: Option<Score>, title: string)
    requires Flows.Headed(fs, rest, score, title)
    ensures Fleet.At(fs, title, Fleet.Outside) > 0 <==> score == Some(Afhankelijk)
  {
    var is_ := Fleet.IsAt(title, Fleet.Outside);
    CountPositive(rest, is_);
    assert Fleet.At(rest, title, Fleet.Outside) == 0;
    if score.Some? {
      assert fs[1..] == rest;
    } else {
      assert fs == rest;
    }
  }

  /** A flow of kind Outside bears rule r's title exactly if the rule's last score is afhankelijk. */
  lemma {:induction false} FlowShows(rs: seq<Rationale>, rules: seq<Flows.FlowRule>, r: Flows.FlowRule)
    requires Flows.DistinctTitles(rules) && r in rules
    ensures Fleet.At(Flows.FlowsFrom(rs, rules), r.title, Fleet.Outside) > 0 <==>
            Flows.ScoreOf(Flows.Last(rs, r.id)) == Some(Afhankelijk)
    decreases |rules|
  {
    var fs, rest := Flows.FlowsFrom(rs, rules), Flows.FlowsFrom(rs, rules[1..]);
    var is_ := Fleet.IsAt(r.title, Fleet.Outside);
    hide Flows.Last;
    Flows.HeadFlow(rs, rules);
    CountPositive(fs, is_);
    CountPositive(rest, is_);
    assert rules == [rules[0]] + rules[1..];
    if r in rules[1..] {
      assert r.title != rules[0].title by {
        var i :| 0 <= i < |rules[1..]| && rules[1..][i] == r;
        assert rules[i + 1] == r;
      }
      FlowShows(rs, rules[1..], r);
      SkipHead(fs, rest, Flows.ScoreOf(Flows.Last(rs, rules[0].id)), rules[0].title, r.title);
    } else {
      OwnHead(fs, rest, Flows.ScoreOf(Flows.Last(rs, r.id)), r.title);
    }
  }

  predicate AllListed(orders: seq<seq<Assessment>>, ts: seq<A.Target>) {
    |orders| == |ts| && forall i :: 0 <= i < |ts| ==> Lists(orders[i], ts[i])
  }

  lemma OneShown(order: seq<Assessment>, t: A.Target, fw: string, rule: Flows.FlowRule)
    requires Lists(order, t) && KnownTo([t], fw, rule.id) && rule in Flows.FLOW_RULES
    ensures Fleet.Shows(rule.title, Fleet.Outside)(Flows.FlowsOf(order)) <==> LastFails(t, fw, rule.id)
  {
    Flows.FlowTitlesDistinct();
    FlowShows(Flows.AllEntries(order), Flows.FLOW_RULES, rule);
    OneFrameworkDecides(t, order, fw, rule.id);
  }

  lemma {:induction false} ShownCount(orders: seq<seq<Assessment>>, ts: seq<A.Target>, fw: string, rule: Flows.FlowRule)
    requires AllListed(orders, ts) && KnownTo(ts, fw, rule.id) && rule in Flows.FLOW_RULES
    ensures Count(Fleet.FlowsOfEach(orders), Fleet.Shows(rule.title, Fleet.Outside)) == Count(ts, ShowsIn(fw, rule.id))
    decreases |ts|
  {
    if ts != [] {
      assert ts[0] in ts && forall t :: t in ts[1..] ==> t in ts;
      ShownCount(orders[1..], ts[1..], fw, rule);
      OneShown(orders[0], ts[0], fw, rule);
      assert Fleet.FlowsOfEach(orders)[1..] == Fleet.FlowsOfEach(orders[1..]);
    }
  }

  // ----- The two agree -----

  lemma LastIsOne(t: A.Target, fw: string, id: string)
    ensures LastFails(t, fw, id) ==> AnyFails(t, fw, id)
  {
  }

  lemma {:induction false} CountsAgree(ts: seq<A.Target>, p: A.Target -> bool, q: A.Target -> bool)
    requires forall t :: t in ts && p(t) ==> q(t)
    ensures Count(ts, p) <= Count(ts, q)
    ensures Count(ts, p) == Count(ts, q) <==> forall t :: t in ts && q(t) ==> p(t)
  {
    if ts != [] {
      CountsAgree(ts[1..], p, q);
      assert ts == [ts[0]] + ts[1..];
    }
  }

  /**
   * For an unmerged flow rule that one framework knows, the concern table's count of failing targets equals the flow
   * table's afhankelijk count exactly if no target overrides a failing rationale of the rule with a later one.
   */
  lemma ConcernsEqualFlows(ts: seq<A.Target>, orders: seq<seq<Assessment>>, fw: string, rule: Flows.FlowRule,
                           concern: A.ConcernRow, row: Fleet.Row)
    requires DistinctIds(ts) && NoBars(ts) && '|' !in fw && AllListed(orders, ts)
    requires rule in Flows.FLOW_RULES && KnownTo(ts, fw, rule.id) && A.Topic(A.Ref(fw, rule.id)) != A.CERT_TOPIC
    requires A.IsRow(concern, A.AllEntries(ts)) && concern.topic == A.Topic(A.Ref(fw, rule.id))
    requires Fleet.IsRow(row, Flatten(Fleet.FlowsOfEach(orders)), rule.title)
    ensures row.afhankelijk <= concern.targetCount
    ensures concern.targetCount == row.afhankelijk <==>
            forall t :: t in ts && AnyFails(t, fw, rule.id) ==> LastFails(t, fw, rule.id)
  {
    hide A.Topic, A.AllEntries, AnyFails, LastFails, KnownTo, AllListed;
    FailingAreIds(ts, fw, rule.id);
    IdsCount(ts, CountsIn(fw, rule.id));
    Fleet.RowsCountDomains(orders, rule.title, Fleet.Outside);
    ShownCount(orders, ts, fw, rule);
    forall t | t in ts && ShowsIn(fw, rule.id)(t) ensures CountsIn(fw, rule.id)(t) {
      LastIsOne(t, fw, rule.id);
    }
    CountsAgree(ts, ShowsIn(fw, rule.id), CountsIn(fw, rule.id));
  }

  /** A rule has at most one line, as an assessment run writes. */
  predicate AtMostOnce(rs: seq<Rationale>, id: string) {
    forall i, j :: 0 <= i < j < |rs| ==> !(rs[i].rule == id && rs[j].rule == id)
  }

  /** In particular when each assessment has one line per rule. */
  lemma {:induction false} OneLineAgrees(rs: seq<Rationale>, id: string, r: Rationale)
    requires AtMostOnce(rs, id) && r in rs && r.rule == id
    ensures Flows.Last(rs, id) == Some(r)
  {
    if rs[|rs| - 1].rule != id {
      OneLineAgrees(rs[..|rs| - 1], id, r);
    }
  }
}
