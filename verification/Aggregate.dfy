/** Per-framework verdicts and top concerns across targets (internal/ui/aggregate.go). */
module Aggregate {
  import opened Sequences
  import opened Assessments
  import Strings
  import Flows

  /** A target with its latest assessment per framework; the map is visited in any order. */
  datatype Target = Target(id: string, assessments: map<string, Assessment>)

  // ----- One target -----

  /** score is the worst of the rated dimensions, or onbekend when none is rated. */
  predicate IsWorst(score: Score, ds: seq<DimensionScore>) {
    if forall d :: d in ds ==> Rank(d.score) == 0 then score == Onbekend
    else
      && Rank(score) > 0 && (exists d :: d in ds && d.score == score)
      && forall d :: d in ds && Rank(d.score) > 0 ==> Rank(score) <= Rank(d.score)
  }

  lemma IsWorstUnique(a: Score, b: Score, ds: seq<DimensionScore>)
    requires IsWorst(a, ds) && IsWorst(b, ds)
    ensures a == b
  {
    if d :| d in ds && Rank(d.score) > 0 {
      RankIsInjective(a, b);
    }
  }

  lemma WorstNext(score: Score, d: DimensionScore, ds: seq<DimensionScore>)
    requires IsWorst(score, ds)
    ensures var lower := Rank(d.score) > 0 && (Rank(score) == 0 || Rank(d.score) < Rank(score));
            var worst := if lower then d.score else score;
            IsWorst(worst, [d] + ds) && IsWorst(worst, ds + [d])
  {
    assert d in [d] + ds && d in ds + [d];
    assert forall x :: x in [d] + ds <==> x == d || x in ds;
    assert forall x :: x in ds + [d] <==> x == d || x in ds;
  }

  lemma {:induction false} WorstExists(ds: seq<DimensionScore>) returns (score: Score)
    ensures IsWorst(score, ds)
  {
    score := Onbekend;
    if ds != [] {
      var rest := WorstExists(ds[1..]);
      WorstNext(rest, ds[0], ds[1..]);
      assert ds == [ds[0]] + ds[1..];
      score :=
        if Rank(ds[0].score) > 0 && (Rank(rest) == 0 || Rank(ds[0].score) < Rank(rest)) then ds[0].score else rest;
    }
  }

  ghost function Worst(ds: seq<DimensionScore>): (score: Score)
    ensures IsWorst(score, ds)
  {
    assert exists score :: IsWorst(score, ds) by { var score := WorstExists(ds); }
    var score :| IsWorst(score, ds);
    score
  }

  function IsRated(): DimensionScore -> bool {
    (d: DimensionScore) => Rank(d.score) > 0
  }

  /** The names of the rated dimensions. */
  function RatedNames(ds: seq<DimensionScore>): seq<string> {
    Map((d: DimensionScore) => d.dimension, Filter(ds, IsRated()))
  }

  function ByName(): (string, string) -> bool {
    (a: string, b: string) => Strings.Less(a, b)
  }

  lemma ByNameIsOrder()
    ensures StrictOrder(ByName())
  {
    forall a: string ensures !ByName()(a, a) {
      Strings.Irreflexive(a);
    }
    forall a: string, b: string, c: string | ByName()(a, b) && ByName()(b, c) ensures ByName()(a, c) {
      Strings.Transitive(a, b, c);
    }
  }

  lemma RatedNext(ds: seq<DimensionScore>, d: DimensionScore)
    ensures RatedNames(ds + [d]) == RatedNames(ds) + if Rank(d.score) > 0 then [d.dimension] else []
  {
    FilterConcat(ds, [d], IsRated());
    assert Filter([d], IsRated()) == if Rank(d.score) > 0 then [d] else [];
  }

  lemma {:induction false} NoneRated(ds: seq<DimensionScore>)
    ensures Rank(Worst(ds)) == 0 ==> RatedNames(ds) == []
  {
    if Rank(Worst(ds)) == 0 {
      assert IsWorst(Worst(ds), ds);
      FilterNone(ds, IsRated());
    }
  }

  /** The worst rated score, and the names of the dimensions it covers, sorted. */
  method WorstScoreCovering(ds: seq<DimensionScore>) returns (worst: Score, covered: seq<string>)
    ensures worst == Worst(ds)
    ensures multiset(covered) == multiset(RatedNames(ds)) && SortedBy(covered, ByName())
  {
    hide RatedNames;
    worst := Onbekend;
    var haveAny := false;
    covered := [];
    assert RatedNames(ds[..0]) == [] by { NoneRated([]); }
    for i := 0 to |ds|
      invariant IsWorst(worst, ds[..i]) && (haveAny <==> Rank(worst) > 0)
      invariant covered == RatedNames(ds[..i])
    {
      WorstNext(worst, ds[i], ds[..i]);
      RatedNext(ds[..i], ds[i]);
      PrefixStep(ds, i);
      if ds[i].score == Onbekend || Rank(ds[i].score) == 0 {
        continue;
      }
      covered := covered + [ds[i].dimension];
      if !haveAny || Rank(ds[i].score) < Rank(worst) {
        worst := ds[i].score;
        haveAny := true;
      }
    }
    assert ds[..|ds|] == ds;
    IsWorstUnique(worst, Worst(ds), ds);
    NoneRated(ds);
    if !haveAny {
      return Onbekend, [];
    }
    ByNameIsOrder();
    covered := SortBy(covered, ByName());
  }

  method WorstScore(ds: seq<DimensionScore>) returns (worst: Score)
    ensures worst == Worst(ds)
  {
    var covered;
    worst, covered := WorstScoreCovering(ds);
  }

  // ----- Worst and count per framework -----

  /** The worst scores of the targets assessed under fw. */
  ghost function ScoresOf(ts: seq<Target>, fw: string): (r: seq<Score>)
    ensures |r| <= |ts|
  {
    if ts == [] then []
    else
      (if fw in ts[0].assessments then [Worst(ts[0].assessments[fw].dimensions)] else []) + ScoresOf(ts[1..], fw)
  }

  datatype Bucket = Bucket(worst: Score, atWorst: nat, total: nat)

  function At(s: Score): Score -> bool {
    (x: Score) => x == s
  }

  /** The lowest rated score, onbekend only if none is rated, and exactly how many sit at it. */
  predicate IsBucket(b: Bucket, scores: seq<Score>) {
    && b.total == |scores|
    && (forall s :: s in scores ==> s == Onbekend || Rank(s) > 0)
    && (if forall s :: s in scores ==> s == Onbekend then b.worst == Onbekend
        else b.worst in scores && Rank(b.worst) > 0
             && forall s :: s in scores && Rank(s) > 0 ==> Rank(b.worst) <= Rank(s))
    && b.atWorst == Count(scores, At(b.worst))
  }

  /** One more target's score in the bucket. */
  function Enter(b: Bucket, s: Score): Bucket {
    if Rank(s) > 0 then
      if b.worst == Onbekend || Rank(s) < Rank(b.worst) then Bucket(s, 1, b.total + 1)
      else if s == b.worst then Bucket(b.worst, b.atWorst + 1, b.total + 1)
      else Bucket(b.worst, b.atWorst, b.total + 1)
    else Bucket(b.worst, if b.worst == Onbekend then b.atWorst + 1 else b.atWorst, b.total + 1)
  }

  lemma EnterBucket(b: Bucket, scores: seq<Score>, s: Score)
    requires IsBucket(b, scores) && (s == Onbekend || Rank(s) > 0)
    ensures IsBucket(Enter(b, s), scores + [s])
  {
    var all := scores + [s];
    assert s in all && forall x :: x in all <==> x == s || x in scores;
    forall x ensures Count(all, At(x)) == Count(scores, At(x)) + if s == x then 1 else 0 {
      CountConcat(scores, [s], At(x));
      assert |[s][1..]| == 0;
    }
    if s !in scores {
      CountPositive(scores, At(s));
    }
    if Rank(s) > 0 && b.worst != Onbekend && Rank(s) == Rank(b.worst) {
      RankIsInjective(s, b.worst);
    }
  }

  function BucketIn(buckets: map<string, Bucket>, fw: string): Bucket {
    if fw in buckets then buckets[fw] else Bucket(Onbekend, 0, 0)
  }

  function Frameworks(ts: seq<Target>): set<string> {
    set t, fw | t in ts && fw in t.assessments :: fw
  }

  lemma {:induction false} ScoresNext(ts: seq<Target>, t: Target, fw: string)
    ensures ScoresOf(ts + [t], fw) ==
            ScoresOf(ts, fw) + if fw in t.assessments then [Worst(t.assessments[fw].dimensions)] else []
  {
    if ts == [] {
      assert ts + [t] == [t] && ScoresOf([t][1..], fw) == [];
    } else {
      assert (ts + [t])[1..] == ts[1..] + [t];
      ScoresNext(ts[1..], t, fw);
    }
  }

  lemma {:induction false} ScoresExist(ts: seq<Target>, fw: string)
    ensures ScoresOf(ts, fw) != [] <==> fw in Frameworks(ts)
  {
    if ts != [] {
      ScoresExist(ts[1..], fw);
      assert ts == [ts[0]] + ts[1..];
    }
  }

  /** The scores under fw once t has been visited for every framework but those left. */
  ghost function SeenScores(ts: seq<Target>, t: Target, left: set<string>, fw: string): seq<Score> {
    ScoresOf(ts, fw) + if fw in t.assessments && fw !in left then [Worst(t.assessments[fw].dimensions)] else []
  }

  ghost predicate Filled(buckets: map<string, Bucket>, ts: seq<Target>, t: Target, left: set<string>) {
    forall fw :: IsBucket(BucketIn(buckets, fw), SeenScores(ts, t, left, fw))
                 && (fw in buckets <==> SeenScores(ts, t, left, fw) != [])
  }

  lemma WorstIsRated(ds: seq<DimensionScore>)
    ensures Worst(ds) == Onbekend || Rank(Worst(ds)) > 0
  {
    assert IsWorst(Worst(ds), ds);
  }

  lemma FillOne(buckets: map<string, Bucket>, ts: seq<Target>, t: Target, left: set<string>, fw: string)
    requires Filled(buckets, ts, t, left) && fw in left && fw in t.assessments
    ensures Filled(buckets[fw := Enter(BucketIn(buckets, fw), Worst(t.assessments[fw].dimensions))], ts, t, left - {fw})
  {
    hide IsBucket, Worst, Enter, ScoresOf;
    var s := Worst(t.assessments[fw].dimensions);
    assert s == Onbekend || Rank(s) > 0 by { WorstIsRated(t.assessments[fw].dimensions); }
    assert SeenScores(ts, t, left, fw) == ScoresOf(ts, fw);
    assert SeenScores(ts, t, left - {fw}, fw) == ScoresOf(ts, fw) + [s];
    EnterBucket(BucketIn(buckets, fw), SeenScores(ts, t, left, fw), s);
    assert forall g :: g != fw ==> SeenScores(ts, t, left - {fw}, g) == SeenScores(ts, t, left, g);
  }

  ghost predicate AllFilled(buckets: map<string, Bucket>, ts: seq<Target>) {
    forall fw :: IsBucket(BucketIn(buckets, fw), ScoresOf(ts, fw)) && (fw in buckets <==> ScoresOf(ts, fw) != [])
  }

  lemma BeginTarget(buckets: map<string, Bucket>, ts: seq<Target>, t: Target)
    requires AllFilled(buckets, ts)
    ensures Filled(buckets, ts, t, t.assessments.Keys)
  {
    hide IsBucket;
    assert forall fw :: SeenScores(ts, t, t.assessments.Keys, fw) == ScoresOf(ts, fw);
  }

  lemma EndTarget(buckets: map<string, Bucket>, ts: seq<Target>, t: Target)
    requires Filled(buckets, ts, t, {})
    ensures AllFilled(buckets, ts + [t])
  {
    hide IsBucket, Worst;
    forall fw ensures ScoresOf(ts + [t], fw) == SeenScores(ts, t, {}, fw) {
      ScoresNext(ts, t, fw);
    }
  }

  lemma NothingFilled()
    ensures AllFilled(map[], [])
  {
  }

  /** The body of the loop over targets, in whatever order its map yields the frameworks. */
  method VisitTarget(buckets: map<string, Bucket>, ghost ts: seq<Target>, t: Target) returns (out: map<string, Bucket>)
    requires AllFilled(buckets, ts)
    ensures AllFilled(out, ts + [t])
  {
    hide Filled, AllFilled;
    BeginTarget(buckets, ts, t);
    out := buckets;
    var left := t.assessments.Keys;
    while left != {}
      invariant left <= t.assessments.Keys && Filled(out, ts, t, left)
      decreases left
    {
      var fw :| fw in left;
      FillOne(out, ts, t, left, fw);
      var b := BucketIn(out, fw);
      b := b.(total := b.total + 1);
      var score := WorstScore(t.assessments[fw].dimensions);
      if Rank(score) > 0 {
        if b.worst == Onbekend || Rank(score) < Rank(b.worst) {
          b := b.(worst := score, atWorst := 1);
        } else if score == b.worst {
          b := b.(atWorst := b.atWorst + 1);
        }
      } else if b.worst == Onbekend {
        b := b.(atWorst := b.atWorst + 1);
      }
      out := out[fw := b];
      left := left - {fw};
    }
    EndTarget(out, ts, t);
  }

  datatype FrameworkVerdict = FrameworkVerdict(framework: string, score: Score, targetsAtWorst: nat, totalAssessed: nat)

  function FrameworkRank(fw: string): nat {
    if fw == "wand" then 0 else if fw == "eucsf" then 1 else 2
  }

  predicate Before(a: string, b: string) {
    if FrameworkRank(a) != FrameworkRank(b) then FrameworkRank(a) < FrameworkRank(b) else Strings.Less(a, b)
  }

  function ByFramework(): (FrameworkVerdict, FrameworkVerdict) -> bool {
    (a: FrameworkVerdict, b: FrameworkVerdict) => Before(a.framework, b.framework)
  }

  lemma BeforeIsOrder(a: string, b: string, c: string)
    ensures !Before(a, a) && (Before(a, b) && Before(b, c) ==> Before(a, c))
  {
    Strings.Irreflexive(a);
    if Strings.Less(a, b) && Strings.Less(b, c) {
      Strings.Transitive(a, b, c);
    }
  }

  lemma ByFrameworkIsOrder()
    ensures StrictOrder(ByFramework())
  {
    forall a: FrameworkVerdict ensures !ByFramework()(a, a) {
      BeforeIsOrder(a.framework, a.framework, a.framework);
    }
    forall a: FrameworkVerdict, b: FrameworkVerdict, c: FrameworkVerdict | ByFramework()(a, b) && ByFramework()(b, c)
      ensures ByFramework()(a, c) {
      BeforeIsOrder(a.framework, b.framework, c.framework);
    }
  }

  ghost predicate IsVerdict(v: FrameworkVerdict, ts: seq<Target>) {
    IsBucket(Bucket(v.score, v.targetsAtWorst, v.totalAssessed), ScoresOf(ts, v.framework))
  }

  function VerdictOf(buckets: map<string, Bucket>, fw: string): FrameworkVerdict {
    var b := BucketIn(buckets, fw);
    FrameworkVerdict(fw, b.worst, b.atWorst, b.total)
  }

  method CollectVerdicts(buckets: map<string, Bucket>) returns (rows: seq<FrameworkVerdict>)
    ensures |rows| == |buckets.Keys|
    ensures forall v :: v in rows ==> v.framework in buckets && v == VerdictOf(buckets, v.framework)
    ensures forall fw :: fw in buckets ==> VerdictOf(buckets, fw) in rows
  {
    rows := [];
    var left := buckets.Keys;
    while left != {}
      invariant left <= buckets.Keys && |rows| + |left| == |buckets.Keys|
      invariant forall v :: v in rows ==> v.framework in buckets && v == VerdictOf(buckets, v.framework)
      invariant forall fw :: fw in buckets && fw !in left ==> VerdictOf(buckets, fw) in rows
      decreases left
    {
      var fw :| fw in left;
      rows := rows + [VerdictOf(buckets, fw)];
      left := left - {fw};
    }
  }

  lemma FilledMeans(buckets: map<string, Bucket>, ts: seq<Target>)
    requires AllFilled(buckets, ts)
    ensures buckets.Keys == Frameworks(ts)
    ensures forall fw :: fw in buckets ==> IsVerdict(VerdictOf(buckets, fw), ts)
  {
    hide IsBucket;
    forall fw ensures fw in buckets <==> fw in Frameworks(ts) {
      ScoresExist(ts, fw);
    }
  }

  /** One verdict per framework, each the lowest score, how many sit at it and how many were assessed. */
  method WorstByFramework(ts: seq<Target>) returns (out: seq<FrameworkVerdict>)
    ensures |out| == |Frameworks(ts)| && SortedBy(out, ByFramework())
    ensures forall v :: v in out ==> v.framework in Frameworks(ts) && IsVerdict(v, ts)
    ensures forall fw :: fw in Frameworks(ts) ==> exists v :: v in out && v.framework == fw
  {
    hide AllFilled, IsBucket, Frameworks, SortedBy;
    var buckets: map<string, Bucket> := map[];
    NothingFilled();
    for i := 0 to |ts|
      invariant AllFilled(buckets, ts[..i])
    {
      buckets := VisitTarget(buckets, ts[..i], ts[i]);
      PrefixStep(ts, i);
    }
    assert ts[..|ts|] == ts;
    FilledMeans(buckets, ts);
    var rows := CollectVerdicts(buckets);
    ByFrameworkIsOrder();
    out := SortBy(rows, ByFramework());
    assert |out| == |multiset(out)| == |multiset(rows)|;
    assert forall v :: v in out <==> v in multiset(rows);
    forall fw | fw in Frameworks(ts) ensures exists v :: v in out && v.framework == fw {
      assert VerdictOf(buckets, fw) in multiset(rows);
      assert VerdictOf(buckets, fw) in out;
    }
  }

  /**
   * The same scores in any order make the same bucket; it is onbekend exactly when nobody is rated, and then counts
   * all.
   */
  lemma BucketIsDetermined(b: Bucket, s: seq<Score>, c: Bucket, t: seq<Score>)
    requires IsBucket(b, s) && IsBucket(c, t) && multiset(s) == multiset(t)
    ensures b == c
    ensures b.worst == Onbekend <==> forall x :: x in s ==> x == Onbekend
    ensures b.worst == Onbekend ==> b.atWorst == b.total
    ensures b.total > 0 ==> 0 < b.atWorst <= b.total
  {
    assert |s| == |multiset(s)| == |multiset(t)| == |t|;
    assert forall x :: x in s <==> x in multiset(t);
    assert (b.worst in s ==> b.worst in t) && (c.worst in t ==> c.worst in s);
    if b.worst != Onbekend && c.worst != Onbekend {
      RankIsInjective(b.worst, c.worst);
    }
    CountPermutation(s, t, At(b.worst));
    CountAll(s, At(b.worst));
    CountPositive(s, At(b.worst));
  }

  // ----- Top concerns -----

  datatype Ref = Ref(framework: string, criterium: string)

  const WAND_CERT := Ref("wand", "wand.juridisch.cert_issuer_eea")
  const EUCSF_CERT := Ref("eucsf", "eucsf.sov2.cert_issuer_eu")
  const CERT_TOPIC := "cert_issuer_jurisdiction"

  function Topic(ref: Ref): string {
    if ref == WAND_CERT || ref == EUCSF_CERT then CERT_TOPIC
    else ref.framework + "|" + ref.criterium
  }

  /** One rationale of one target: which rule, and whether it came out afhankelijk. */
  datatype Entry = Entry(target: string, ref: Ref, afhankelijk: bool)

  function EntryOf(id: string, fw: string, r: Rationale): Entry {
    Entry(id, Ref(fw, r.rule), r.score == Afhankelijk)
  }

  function EntriesOf(id: string, fw: string, rs: seq<Rationale>): set<Entry> {
    set r | r in rs :: EntryOf(id, fw, r)
  }

  function EntriesUnder(t: Target, fws: set<string>): set<Entry> {
    set fw, e | fw in fws && fw in t.assessments
      && e in EntriesOf(t.id, fw, Flows.Entries(t.assessments[fw].dimensions)) :: e
  }

  /** Everything the targets' rationales say. */
  function AllEntries(ts: seq<Target>): set<Entry> {
    set t, e | t in ts && e in EntriesUnder(t, t.assessments.Keys) :: e
  }

  function Evaluated(es: set<Entry>, topic: string): set<string> {
    set e | e in es && Topic(e.ref) == topic :: e.target
  }

  function Failing(es: set<Entry>, topic: string): set<string> {
    set e | e in es && Topic(e.ref) == topic && e.afhankelijk :: e.target
  }

  function Rules(es: set<Entry>, topic: string): set<Ref> {
    set e | e in es && Topic(e.ref) == topic :: e.ref
  }

  function FailingTopics(es: set<Entry>): set<string> {
    set e | e in es && e.afhankelijk :: Topic(e.ref)
  }

  /** What the loops gather per topic. */
  datatype Gathered = Gathered(
    all: map<string, set<string>>, afhankelijk: map<string, set<string>>, rules: map<string, set<Ref>>)

  function In<T>(m: map<string, set<T>>, topic: string): set<T> {
    if topic in m then m[topic] else {}
  }

  ghost predicate Gathers(g: Gathered, es: set<Entry>) {
    && (forall k :: && In(g.all, k) == Evaluated(es, k) && In(g.afhankelijk, k) == Failing(es, k)
                    && In(g.rules, k) == Rules(es, k))
    && g.afhankelijk.Keys == FailingTopics(es)
  }

  function Note(g: Gathered, e: Entry): Gathered {
    var k := Topic(e.ref);
    var all, rules := g.all[k := In(g.all, k) + {e.target}], g.rules[k := In(g.rules, k) + {e.ref}];
    if e.afhankelijk then Gathered(all, g.afhankelijk[k := In(g.afhankelijk, k) + {e.target}], rules)
    else Gathered(all, g.afhankelijk, rules)
  }

  lemma EntryNext(es: set<Entry>, e: Entry, k: string)
    ensures Evaluated(es + {e}, k) == Evaluated(es, k) + if Topic(e.ref) == k then {e.target} else {}
    ensures Failing(es + {e}, k) == Failing(es, k) + if Topic(e.ref) == k && e.afhankelijk then {e.target} else {}
    ensures Rules(es + {e}, k) == Rules(es, k) + if Topic(e.ref) == k then {e.ref} else {}
  {
  }

  lemma TopicsNext(es: set<Entry>, e: Entry)
    ensures FailingTopics(es + {e}) == FailingTopics(es) + if e.afhankelijk then {Topic(e.ref)} else {}
  {
  }

  lemma NoteGathers(g: Gathered, es: set<Entry>, e: Entry)
    requires Gathers(g, es)
    ensures Gathers(Note(g, e), es + {e})
  {
    hide Topic, Evaluated, Failing, Rules, FailingTopics;
    var h, topic := Note(g, e), Topic(e.ref);
    TopicsNext(es, e);
    forall k ensures In(h.all, k) == Evaluated(es + {e}, k) && In(h.afhankelijk, k) == Failing(es + {e}, k)
                     && In(h.rules, k) == Rules(es + {e}, k) {
      EntryNext(es, e, k);
    }
  }

  /** The two innermost loops: the rationales of one assessment. */
  method NoteAssessment(g: Gathered, ghost es: set<Entry>, id: string, fw: string, rs: seq<Rationale>)
    returns (out: Gathered)
    requires Gathers(g, es)
    ensures Gathers(out, es + EntriesOf(id, fw, rs))
  {
    hide Gathers, Topic;
    out := g;
    assert es + EntriesOf(id, fw, rs[..0]) == es;
    for i := 0 to |rs|
      invariant Gathers(out, es + EntriesOf(id, fw, rs[..i]))
    {
      var e := EntryOf(id, fw, rs[i]);
      assert es + EntriesOf(id, fw, rs[..i + 1]) == es + EntriesOf(id, fw, rs[..i]) + {e} by { PrefixStep(rs, i); }
      NoteGathers(out, es + EntriesOf(id, fw, rs[..i]), e);
      out := Note(out, e);
    }
    assert rs[..|rs|] == rs;
  }

  method NoteTarget(g: Gathered, ghost es: set<Entry>, t: Target) returns (out: Gathered)
    requires Gathers(g, es)
    ensures Gathers(out, es + EntriesUnder(t, t.assessments.Keys))
  {
    hide Gathers, EntriesOf;
    out := g;
    var left := t.assessments.Keys;
    ghost var seen: set<string> := {};
    assert es + EntriesUnder(t, seen) == es;
    while left != {}
      invariant seen + left == t.assessments.Keys && Gathers(out, es + EntriesUnder(t, seen))
      decreases left
    {
      var fw :| fw in left;
      var rs := Flows.Entries(t.assessments[fw].dimensions);
      out := NoteAssessment(out, es + EntriesUnder(t, seen), t.id, fw, rs);
      assert es + EntriesUnder(t, seen + {fw}) == es + EntriesUnder(t, seen) + EntriesOf(t.id, fw, rs);
      left := left - {fw};
      seen := seen + {fw};
    }
    assert seen == t.assessments.Keys;
  }

  lemma NothingGathered()
    ensures Gathers(Gathered(map[], map[], map[]), {})
  {
  }

  method Gather(ts: seq<Target>) returns (g: Gathered)
    ensures Gathers(g, AllEntries(ts))
  {
    hide Gathers, EntriesUnder;
    g := Gathered(map[], map[], map[]);
    assert AllEntries(ts[..0]) == {};
    NothingGathered();
    for i := 0 to |ts|
      invariant Gathers(g, AllEntries(ts[..i]))
    {
      g := NoteTarget(g, AllEntries(ts[..i]), ts[i]);
      assert AllEntries(ts[..i + 1]) ==
        AllEntries(ts[..i]) + EntriesUnder(ts[i], ts[i].assessments.Keys) by { PrefixStep(ts, i); }
    }
    assert ts[..|ts|] == ts;
  }

  /** topic, which the source leaves out of the row, is the key the row was made for. */
  datatype ConcernRow = ConcernRow(topic: string, first: Ref, targetCount: nat, total: nat, frameworks: seq<string>)

  function ByRef(): (Ref, Ref) -> bool {
    (a: Ref, b: Ref) => Before(a.framework, b.framework)
  }

  /** One entry per rule, naming its framework. */
  predicate ListsExactly(fws: seq<string>, rules: set<Ref>) {
    && |fws| == |rules|
    && (forall r :: r in rules ==> r.framework in fws)
    && (forall fw :: fw in fws ==> exists r :: r in rules && r.framework == fw)
  }

  /** The frameworks listed are those that evaluated the topic, failing or not, the leading one first. */
  predicate IsRow(row: ConcernRow, es: set<Entry>) {
    && row.topic in FailingTopics(es)
    && row.targetCount == |Failing(es, row.topic)| && row.total == |Evaluated(es, row.topic)|
    && row.first in Rules(es, row.topic)
      && (forall r :: r in Rules(es, row.topic) ==> !Before(r.framework, row.first.framework))
    && ListsExactly(row.frameworks, Rules(es, row.topic))
    && (forall i, j :: 0 <= i < j < |row.frameworks| ==> !Before(row.frameworks[j], row.frameworks[i]))
  }

  /** A row never counts a target twice, nor more failing targets than evaluated ones, and always some. */
  lemma RowLaws(row: ConcernRow, es: set<Entry>)
    requires IsRow(row, es)
    ensures 0 < row.targetCount <= row.total
  {
    assert Failing(es, row.topic) <= Evaluated(es, row.topic);
    SubsetSize(Failing(es, row.topic), Evaluated(es, row.topic));
    var e :| e in es && e.afhankelijk && Topic(e.ref) == row.topic;
    assert e.target in Failing(es, row.topic);
  }

  method List<T(==)>(s: set<T>) returns (l: seq<T>)
    ensures |l| == |s| && forall x :: x in l <==> x in s
  {
    l := [];
    var left := s;
    while left != {}
      invariant left <= s && |l| + |left| == |s|
      invariant forall x :: x in l <==> x in s && x !in left
      decreases left
    {
      var x :| x in left;
      l := l + [x];
      left := left - {x};
    }
  }

  lemma ByRefIsOrder()
    ensures StrictOrder(ByRef())
  {
    forall a: Ref ensures !ByRef()(a, a) {
      BeforeIsOrder(a.framework, a.framework, a.framework);
    }
    forall a: Ref, b: Ref, c: Ref | ByRef()(a, b) && ByRef()(b, c) ensures ByRef()(a, c) {
      BeforeIsOrder(a.framework, b.framework, c.framework);
    }
  }

  method SortRefs(rules: set<Ref>) returns (refs: seq<Ref>)
    ensures |refs| == |rules| && SortedBy(refs, ByRef()) && forall r :: r in refs <==> r in rules
  {
    var listed := List(rules);
    ByRefIsOrder();
    refs := SortBy(listed, ByRef());
    assert forall r :: r in refs <==> r in multiset(listed);
    assert |refs| == |multiset(refs)| == |multiset(listed)|;
  }

  lemma FailingHasRule(es: set<Entry>, topic: string)
    requires topic in FailingTopics(es)
    ensures Rules(es, topic) != {}
  {
    var e :| e in es && e.afhankelijk && Topic(e.ref) == topic;
    assert e.ref in Rules(es, topic);
  }

  lemma FrameworksOf(refs: seq<Ref>, fws: seq<string>)
    requires fws == Map((r: Ref) => r.framework, refs) && SortedBy(refs, ByRef())
    ensures forall r :: r in refs ==> r.framework in fws
    ensures forall fw :: fw in fws ==> exists r :: r in refs && r.framework == fw
    ensures forall i, j :: 0 <= i < j < |fws| ==> !Before(fws[j], fws[i])
  {
    hide Before;
    forall r | r in refs ensures r.framework in fws {
      var i :| 0 <= i < |refs| && refs[i] == r;
      assert fws[i] == r.framework;
    }
    forall fw | fw in fws ensures exists r :: r in refs && r.framework == fw {
      var i :| 0 <= i < |fws| && fws[i] == fw;
      assert refs[i] in refs;
    }
    forall i, j | 0 <= i < j < |fws| ensures !Before(fws[j], fws[i]) {
      assert !ByRef()(refs[j], refs[i]);
    }
  }

  lemma FirstLeads(refs: seq<Ref>)
    requires SortedBy(refs, ByRef()) && refs != []
    ensures forall r :: r in refs ==> !Before(r.framework, refs[0].framework)
  {
    BeforeIsOrder(refs[0].framework, "", "");
  }

  method MakeRow(g: Gathered, ghost es: set<Entry>, topic: string) returns (row: ConcernRow)
    requires Gathers(g, es) && topic in g.afhankelijk
    ensures IsRow(row, es) && row.topic == topic
  {
    hide Topic, Evaluated, Failing, Rules, FailingTopics;
    FailingHasRule(es, topic);
    var refs := SortRefs(In(g.rules, topic));
    FirstLeads(refs);
    row := ConcernRow(topic, refs[0], |In(g.afhankelijk, topic)|, |In(g.all, topic)|,
      Map((r: Ref) => r.framework, refs));
    FrameworksOf(refs, row.frameworks);
  }

  /** Most failing targets first, ties by rule ID. */
  function ByCount(): (ConcernRow, ConcernRow) -> bool {
    (a: ConcernRow, b: ConcernRow) =>
      if a.targetCount != b.targetCount then a.targetCount > b.targetCount
      else Strings.Less(a.first.criterium, b.first.criterium)
  }

  lemma ByCountIsOrder()
    ensures StrictOrder(ByCount())
  {
    forall a: ConcernRow ensures !ByCount()(a, a) {
      Strings.Irreflexive(a.first.criterium);
    }
    forall a: ConcernRow, b: ConcernRow, c: ConcernRow | ByCount()(a, b) && ByCount()(b, c) ensures ByCount()(a, c) {
      if a.targetCount == b.targetCount == c.targetCount {
        Strings.Transitive(a.first.criterium, b.first.criterium, c.first.criterium);
      }
    }
  }

  /** One row per failing topic. */
  predicate IsTable(rows: seq<ConcernRow>, es: set<Entry>) {
    && |rows| == |FailingTopics(es)|
    && (forall r :: r in rows ==> IsRow(r, es))
    && (forall k :: k in FailingTopics(es) ==> exists r :: r in rows && r.topic == k)
  }

  method CollectRows(g: Gathered, ghost es: set<Entry>) returns (rows: seq<ConcernRow>)
    requires Gathers(g, es)
    ensures IsTable(rows, es)
  {
    hide IsRow, FailingTopics;
    rows := [];
    var left := g.afhankelijk.Keys;
    while left != {}
      invariant left <= g.afhankelijk.Keys && |rows| + |left| == |g.afhankelijk.Keys|
      invariant forall r :: r in rows ==> IsRow(r, es)
      invariant forall k :: k in g.afhankelijk && k !in left ==> exists r :: r in rows && r.topic == k
      decreases left
    {
      var topic :| topic in left;
      var row := MakeRow(g, es, topic);
      assert row in rows + [row] && forall r :: r in rows ==> r in rows + [row];
      rows := rows + [row];
      left := left - {topic};
    }
  }

  /** out is the whole table, worst first, cut after maxRows rows if that is positive. */
  ghost predicate IsHead(out: seq<ConcernRow>, es: set<Entry>, maxRows: int) {
    exists full :: IsTable(full, es) && SortedBy(full, ByCount())
                   && out == if maxRows > 0 && |full| > maxRows then full[..maxRows] else full
  }

  lemma SameTable(rows: seq<ConcernRow>, full: seq<ConcernRow>, es: set<Entry>)
    requires IsTable(rows, es) && multiset(rows) == multiset(full)
    ensures IsTable(full, es)
  {
    hide IsRow, FailingTopics;
    assert |full| == |multiset(full)| == |multiset(rows)|;
    assert forall r :: r in full <==> r in multiset(rows);
    forall k | k in FailingTopics(es) ensures exists r :: r in full && r.topic == k {
      var r :| r in rows && r.topic == k;
      assert r in multiset(rows) && r in full;
    }
  }

  method TopConcerns(ts: seq<Target>, maxRows: int) returns (out: seq<ConcernRow>)
    ensures IsHead(out, AllEntries(ts), maxRows)
  {
    hide Gathers, IsTable, AllEntries, SortedBy;
    var g := Gather(ts);
    var rows := CollectRows(g, AllEntries(ts));
    ByCountIsOrder();
    out := SortBy(rows, ByCount());
    SameTable(rows, out, AllEntries(ts));
    ghost var full := out;
    if maxRows > 0 && |out| > maxRows {
      out := out[..maxRows];
    }
    assert out == if maxRows > 0 && |full| > maxRows then full[..maxRows] else full;
  }

  /** The table's order, by what a row says: more failing targets first, then the lesser rule ID. */
  ghost predicate WorstFirst(rows: seq<ConcernRow>) {
    forall i, j :: 0 <= i < j < |rows| ==>
      rows[i].targetCount >= rows[j].targetCount &&
      (rows[i].targetCount == rows[j].targetCount ==> !Strings.Less(rows[j].first.criterium, rows[i].first.criterium))
  }

  lemma RowCounts(row: ConcernRow, es: set<Entry>)
    requires IsRow(row, es)
    ensures row.targetCount == |Failing(es, row.topic)|
  {
  }

  lemma SortedIsWorstFirst(rows: seq<ConcernRow>)
    requires SortedBy(rows, ByCount())
    ensures WorstFirst(rows)
  {
    forall i, j | 0 <= i < j < |rows|
      ensures rows[i].targetCount >= rows[j].targetCount
      ensures rows[i].targetCount == rows[j].targetCount ==>
                !Strings.Less(rows[j].first.criterium, rows[i].first.criterium)
    {
      assert !ByCount()(rows[j], rows[i]);
    }
  }

  lemma CutBehind(full: seq<ConcernRow>, n: nat, r: ConcernRow)
    requires WorstFirst(full) && n <= |full| && r in full
    ensures r in full[..n] || forall x :: x in full[..n] ==> x.targetCount >= r.targetCount
  {
    hide Strings.Less;
    var i :| 0 <= i < |full| && full[i] == r;
    if i < n {
      assert full[..n][i] == r;
    }
  }

  lemma TopicHasRow(full: seq<ConcernRow>, es: set<Entry>, k: string)
    requires IsTable(full, es) && k in FailingTopics(es)
    ensures exists r :: r in full && r.topic == k && r.targetCount == |Failing(es, k)|
  {
    hide FailingTopics, Failing;
    var r :| r in full && r.topic == k;
    RowCounts(r, es);
  }

  lemma HeadIsWorstFirst(rows: seq<ConcernRow>, n: nat)
    requires WorstFirst(rows) && n <= |rows|
    ensures WorstFirst(rows[..n])
  {
    hide Strings.Less;
  }

  /** A failing topic is listed, or cut off behind rows that all count at least as many targets as it has. */
  lemma CutKeepsWorst(out: seq<ConcernRow>, es: set<Entry>, maxRows: int)
    requires IsHead(out, es, maxRows)
    ensures WorstFirst(out) && (maxRows > 0 ==> |out| <= maxRows)
    ensures |out| == (if maxRows > 0 && |FailingTopics(es)| > maxRows then maxRows else |FailingTopics(es)|)
    ensures forall k :: k in FailingTopics(es) ==>
              || (exists r :: r in out && r.topic == k)
              || (maxRows > 0 && |out| == maxRows && forall r :: r in out ==> r.targetCount >= |Failing(es, k)|)
  {
    hide FailingTopics, Failing, IsRow, Strings.Less, WorstFirst, ByCount, SortedBy;
    var full :| IsTable(full, es) && SortedBy(full, ByCount())
                && out == if maxRows > 0 && |full| > maxRows then full[..maxRows] else full;
    SortedIsWorstFirst(full);
    HeadIsWorstFirst(full, |out|);
    assert out == full[..|out|] && |full| == |FailingTopics(es)|;
    forall k | k in FailingTopics(es)
      ensures || (exists r :: r in out && r.topic == k)
              || (maxRows > 0 && |out| == maxRows && forall r :: r in out ==> r.targetCount >= |Failing(es, k)|)
    {
      TopicHasRow(full, es, k);
      hide IsTable;
      var r :| r in full && r.topic == k && r.targetCount == |Failing(es, k)|;
      CutBehind(full, |out|, r);
    }
  }

  lemma LeaderLeads(row: ConcernRow, rules: set<Ref>)
    requires row.first in rules && ListsExactly(row.frameworks, rules)
    requires forall r :: r in rules ==> !Before(r.framework, row.first.framework)
    requires forall i, j :: 0 <= i < j < |row.frameworks| ==> !Before(row.frameworks[j], row.frameworks[i])
    ensures row.frameworks != [] && row.frameworks[0] == row.first.framework
    ensures "wand" in row.frameworks ==> row.first.framework == "wand"
    ensures "wand" !in row.frameworks && "eucsf" in row.frameworks ==> row.first.framework == "eucsf"
  {
    var fws := row.frameworks;
    assert row.first.framework in fws;
    var i :| 0 <= i < |fws| && fws[i] == row.first.framework;
    assert fws[0] in fws;
    var r :| r in rules && r.framework == fws[0];
    assert !Before(fws[i], fws[0]) by { BeforeIsOrder(fws[0], "", ""); }
    Strings.Connected(fws[0], row.first.framework);
  }

  /** A row's leading rule is wand's if wand has one, else eucsf's if eucsf has one; and the frameworks stand so. */
  lemma WandLeads(row: ConcernRow, es: set<Entry>)
    requires IsRow(row, es)
    ensures row.frameworks != [] && row.frameworks[0] == row.first.framework
    ensures "wand" in row.frameworks ==> row.first.framework == "wand"
    ensures "wand" !in row.frameworks && "eucsf" in row.frameworks ==> row.first.framework == "eucsf"
  {
    hide Topic, Evaluated, Failing, FailingTopics, Strings.Less;
    var rules := Rules(es, row.topic);
    BeforeIsOrder("", "", "");
    LeaderLeads(row, rules);
  }

  /** Two rules share a topic exactly when they are the same rule, or the merged pair: no bar in a framework's name. */
  lemma TopicsMerge(a: Ref, b: Ref)
    requires '|' !in a.framework && '|' !in b.framework
    ensures Topic(a) == Topic(b) <==> a == b || (Topic(a) == CERT_TOPIC && Topic(b) == CERT_TOPIC)
  {
    IndexOfAfter(a.framework, '|', a.criterium);
    IndexOfAfter(b.framework, '|', b.criterium);
    var s, t := a.framework + "|" + a.criterium, b.framework + "|" + b.criterium;
    assert s[..|a.framework|] == a.framework && s[|a.framework| + 1..] == a.criterium;
    assert t[..|b.framework|] == b.framework && t[|b.framework| + 1..] == b.criterium;
  }

  /** With a bar in a framework's name two unrelated rules can share a row; neither wand nor eucsf has one. */
  lemma BarsCollide()
    ensures Topic(Ref("a|b", "c")) == Topic(Ref("a", "b|c"))
  {
    assert "a|b" + "|" + "c" == "a" + "|" + "b|c";
  }

  function FailingRules(es: set<Entry>, topic: string): set<Ref> {
    set e | e in es && Topic(e.ref) == topic && e.afhankelijk :: e.ref
  }

  lemma {:induction false} EqualSizes<T>(a: set<T>, b: set<T>)
    requires a <= b && |a| == |b|
    ensures a == b
  {
    if x :| x in b && x !in a {
      SubsetSize(a, b - {x});
    }
  }

  /** A row lists exactly the frameworks whose rule fired afhankelijk if and only if every rule of the topic did. */
  lemma FrameworksFiredIff(row: ConcernRow, es: set<Entry>)
    requires IsRow(row, es)
    ensures ListsExactly(row.frameworks, FailingRules(es, row.topic)) <==>
            forall r :: r in Rules(es, row.topic) ==> exists e :: e in es && e.ref == r && e.afhankelijk
  {
    hide Topic;
    var rules, failing := Rules(es, row.topic), FailingRules(es, row.topic);
    assert failing <= rules;
    if |failing| == |rules| {
      EqualSizes(failing, rules);
    }
    assert (forall r :: r in rules ==> exists e :: e in es && e.ref == r && e.afhankelijk) <==> failing == rules by {
      forall r | r in rules ensures r in failing <==> exists e :: e in es && e.ref == r && e.afhankelijk {
      }
    }
  }

  /** One target whose certificate fails for wand and passes for eucsf. */
  function OneLine(fw: string, rule: string, score: Score): Assessment {
    Assessment(fw, [DimensionScore("juridisch", score, Complete, [Rationale(rule, "", score, ["f1"], "", "")], false)])
  }

  function CertTarget(id: string): Target {
    Target(id, map["wand" := OneLine("wand", WAND_CERT.criterium, Afhankelijk),
                   "eucsf" := OneLine("eucsf", EUCSF_CERT.criterium, Soeverein)])
  }

  lemma OneLineEntries(id: string, fw: string, rule: string, score: Score)
    ensures EntriesOf(id, fw, Flows.Entries(OneLine(fw, rule, score).dimensions)) ==
            {Entry(id, Ref(fw, rule), score == Afhankelijk)}
  {
    var r := Rationale(rule, "", score, ["f1"], "", "");
    var ds := OneLine(fw, rule, score).dimensions;
    assert ds[1..] == [] && Flows.Entries([]) == [];
    assert Flows.Entries(ds) == [r] + [];
    assert EntriesOf(id, fw, [r]) == {EntryOf(id, fw, r)};
  }

  lemma CertEntries(id: string)
    ensures AllEntries([CertTarget(id)]) == {Entry(id, WAND_CERT, true), Entry(id, EUCSF_CERT, false)}
  {
    var t := CertTarget(id);
    OneLineEntries(id, "wand", WAND_CERT.criterium, Afhankelijk);
    OneLineEntries(id, "eucsf", EUCSF_CERT.criterium, Soeverein);
    hide EntriesOf, Flows.Entries;
    assert t.assessments.Keys == {"wand", "eucsf"};
    assert EntriesUnder(t, t.assessments.Keys) == {Entry(id, WAND_CERT, true), Entry(id, EUCSF_CERT, false)};
    assert t in [t] && forall x :: x in [t] ==> x == t;
  }

  lemma TwinInRow(id: string, row: ConcernRow, es: set<Entry>)
    requires IsRow(row, es) && row.topic == CERT_TOPIC
    requires Entry(id, EUCSF_CERT, false) in es
    ensures "eucsf" in row.frameworks
  {
    assert Topic(EUCSF_CERT) == CERT_TOPIC;
    assert EUCSF_CERT in Rules(es, CERT_TOPIC);
    hide Rules, Topic, Before, Evaluated, Failing, FailingTopics;
  }

  lemma OneFails(id: string)
    ensures FailingRules({Entry(id, WAND_CERT, true), Entry(id, EUCSF_CERT, false)}, CERT_TOPIC) == {WAND_CERT}
  {
    var fails := Entry(id, WAND_CERT, true);
    assert Topic(fails.ref) == CERT_TOPIC;
    assert fails in {fails, Entry(id, EUCSF_CERT, false)};
  }

  /** The row the comment misses: only wand's certificate rule failed, and eucsf is listed all the same. */
  lemma SoundTwinIsListed(id: string, row: ConcernRow)
    requires IsRow(row, AllEntries([CertTarget(id)])) && row.topic == CERT_TOPIC
    ensures "eucsf" in row.frameworks
    ensures FailingRules(AllEntries([CertTarget(id)]), CERT_TOPIC) == {WAND_CERT}
  {
    CertEntries(id);
    var es := {Entry(id, WAND_CERT, true), Entry(id, EUCSF_CERT, false)};
    TwinInRow(id, row, es);
    OneFails(id);
    hide IsRow, FailingRules, AllEntries, CertTarget;
  }
}
