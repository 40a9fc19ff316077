/** Import runs over time: idempotence, and why failed runs do not show. */
module ImportTheorems {
  import opened Sequences
  import opened Findings
  import opened ImportCorrelation
  import opened Imports

  predicate AllAccepted(es: seq<Entry>) {
    forall i :: 0 <= i < |es| ==> Accepted(es[i])
  }

  /** Enough store calls for a whole run of ds. */
  predicate Enough(calls: nat, ds: seq<string>) {
    calls >= 6 * |ds|
  }

  /** The import half the assessor receives for domain d. */
  function View(t: Tables, d: string): seq<Finding>
    requires d in t.targets
  {
    Latest(t, t.targets[d])
  }

  predicate AllImports(fs: seq<Finding>) {
    forall i :: 0 <= i < |fs| ==> fs[i].modus == "import"
  }

  lemma RecordIsInvisible(t: Tables, hash: string, domain: string, seen: nat)
    requires WellFormed(t) && domain in t.targets
    ensures WellFormed(RecordImport(t, hash, domain)) && Latest(RecordImport(t, hash, domain), seen) == Latest(t, seen)
  {
    JoinAgrees(t, RecordImport(t, hash, domain), seen, t.findings);
  }

  /** What an assessor looking at target seen finds after each write. */
  lemma StagesShow(t: Tables, hash: string, domain: string, fs: seq<Finding>, seen: nat)
    requires WellFormed(t) && AllImports(fs) && domain in t.targets
    ensures WellFormed(Created(t, hash, domain)) && Latest(Created(t, hash, domain), seen) == Latest(t, seen)
    ensures forall u ::
              u in {Stored(t, hash, domain, fs), Finished(t, hash, domain, fs), Recorded(t, hash, domain, fs)} ==>
              WellFormed(u) &&
              Latest(u, seen) == if seen == t.targets[domain] then Over(fs, Latest(t, seen)) else Latest(t, seen)
  {
    hide Latest, Over;
    var target, origin := t.targets[domain], Some((hash, domain));
    CreateIsInvisible(t, target, origin, seen);
    NewestImport(Created(t, hash, domain), target, t.nextScan, fs, seen);
    FinishIsInvisible(Stored(t, hash, domain, fs), t.nextScan, seen);
    RecordIsInvisible(Finished(t, hash, domain, fs), hash, domain, seen);
  }

  /** What a verdict says about the tables. */
  lemma VerdictMeans(t: Tables, hash: string, domain: string, fs: seq<Finding>, calls: nat)
    ensures var (u, v, left) := ImportDomain(t, hash, domain, fs, calls);
            && u.targets == t.targets && u.nextTarget == t.nextTarget
            && u.imports == t.imports + (if v.Imported? then {(hash, domain)} else {})
            && (v.Already? ==> u == t && (hash, domain) in t.imports)
            && (v.Unknown? ==> u == t && domain !in t.targets)
            && (v.Imported? ==> domain in t.targets && (hash, domain) !in t.imports)
            && (AllValid(fs) && calls >= 6 ==> !v.Failed? && left >= calls - 6)
  {
  }

  /** Importing fs for domain changes at most the domain's own half, and only by laying fs over it. */
  lemma DomainEffect(t: Tables, hash: string, domain: string, fs: seq<Finding>, calls: nat, seen: nat)
    requires WellFormed(t) && AllImports(fs)
    ensures var (u, v, _) := ImportDomain(t, hash, domain, fs, calls);
            && WellFormed(u)
            && (Latest(u, seen) == Latest(t, seen) ||
                (domain in t.targets && seen == t.targets[domain] && (hash, domain) !in t.imports
                 && Latest(u, seen) == Over(fs, Latest(t, seen))))
            && (v.Imported? && domain in t.targets && seen == t.targets[domain] ==>
                Latest(u, seen) == Over(fs, Latest(t, seen)))
  {
    if domain in t.targets {
      StagesShow(t, hash, domain, fs, seen);
    }
  }

  /** The effect of one run on one domain of its file. */
  predicate Effect(t: Tables, u: Tables, hash: string, d: string, g: seq<Finding>)
    requires d in t.targets && u.targets == t.targets
  {
    if (hash, d) in t.imports then (hash, d) in u.imports && View(u, d) == View(t, d)
    else
      && (View(u, d) == View(t, d) || View(u, d) == Over(g, View(t, d)))
      && ((hash, d) in u.imports ==> View(u, d) == Over(g, View(t, d)))
  }

  predicate Untouched(t: Tables, u: Tables, hash: string, d: string)
    requires d in t.targets && u.targets == t.targets
  {
    View(u, d) == View(t, d) && ((hash, d) in u.imports <==> (hash, d) in t.imports)
  }

  lemma {:induction false} RunShape(t: Tables, hash: string, es: seq<Entry>, ds: seq<string>, calls: nat, y: Tally)
    requires WellFormed(t)
    ensures var (u, z) := ImportAll(t, hash, es, ds, calls, y);
            && WellFormed(u) && u.targets == t.targets && u.nextTarget == t.nextTarget
            && (AllAccepted(es) && Enough(calls, ds) && !y.failed ==> !z.failed)
    decreases |ds|
  {
    if ds != [] && !y.failed {
      var g := FindingsFor(es, ds[0]);
      var (m, v, left) := ImportDomain(t, hash, ds[0], g, calls);
      DomainEffect(t, hash, ds[0], g, calls, 0);
      VerdictMeans(t, hash, ds[0], g, calls);
      RunShape(m, hash, es, ds[1..], left, Tallied(y, v));
    }
  }

  lemma DomainSparesOthers(t: Tables, hash: string, e: string, g: seq<Finding>, calls: nat, d: string)
    requires WellFormed(t) && AllImports(g) && d in t.targets && d != e
    ensures var m := ImportDomain(t, hash, e, g, calls).0;
            m.targets == t.targets && Untouched(t, m, hash, d)
  {
    DomainEffect(t, hash, e, g, calls, t.targets[d]);
    VerdictMeans(t, hash, e, g, calls);
  }

  lemma {:induction false} RunSparesOthers(
      t: Tables, hash: string, es: seq<Entry>, ds: seq<string>, calls: nat, y: Tally, d: string)
    requires WellFormed(t) && d in t.targets && d !in ds
    ensures var u := ImportAll(t, hash, es, ds, calls, y).0;
            u.targets == t.targets && Untouched(t, u, hash, d)
    decreases |ds|
  {
    hide View, ImportDomain, FindingsFor, WellFormed;
    if ds != [] && !y.failed {
      var g := FindingsFor(es, ds[0]);
      var (m, v, left) := ImportDomain(t, hash, ds[0], g, calls);
      DomainEffect(t, hash, ds[0], g, calls, 0);
      DomainSparesOthers(t, hash, ds[0], g, calls, d);
      RunSparesOthers(m, hash, es, ds[1..], left, Tallied(y, v), d);
    }
  }

  lemma DomainEffectOnSelf(t: Tables, hash: string, d: string, g: seq<Finding>, calls: nat)
    requires WellFormed(t) && AllImports(g) && d in t.targets
    ensures var (m, v, _) := ImportDomain(t, hash, d, g, calls);
            m.targets == t.targets && Effect(t, m, hash, d, g) && (!v.Failed? ==> (hash, d) in m.imports)
  {
    DomainEffect(t, hash, d, g, calls, t.targets[d]);
    VerdictMeans(t, hash, d, g, calls);
  }

  lemma {:induction false} FailureSticks(t: Tables, hash: string, es: seq<Entry>, ds: seq<string>, calls: nat, y: Tally)
    ensures y.failed ==> ImportAll(t, hash, es, ds, calls, y).1.failed
  {
  }

  lemma EffectRests(t: Tables, m: Tables, u: Tables, hash: string, d: string, g: seq<Finding>)
    requires d in t.targets && m.targets == t.targets && u.targets == t.targets
    requires (Effect(t, m, hash, d, g) && Untouched(m, u, hash, d))
             || (Untouched(t, m, hash, d) && Effect(m, u, hash, d, g))
    ensures Effect(t, u, hash, d, g)
  {
    hide View, Over;
  }

  /** The run deals with d first; what follows leaves d alone. */
  lemma FirstEffect(t: Tables, hash: string, es: seq<Entry>, ds: seq<string>, calls: nat, y: Tally)
    requires WellFormed(t) && Distinct(ds) && ds != [] && ds[0] in t.targets && !y.failed
    ensures var (u, z) := ImportAll(t, hash, es, ds, calls, y);
            && u.targets == t.targets && Effect(t, u, hash, ds[0], FindingsFor(es, ds[0]))
            && (!z.failed ==> (hash, ds[0]) in u.imports)
  {
    var d, g, rest := ds[0], FindingsFor(es, ds[0]), ds[1..];
    var (m, v, left) := ImportDomain(t, hash, d, g, calls);
    var (u, z) := ImportAll(m, hash, es, rest, left, Tallied(y, v));
    assert (u, z) == ImportAll(t, hash, es, ds, calls, y);
    assert Tallied(y, v).failed == v.Failed?;
    DomainEffect(t, hash, d, g, calls, 0);
    hide View, Over, ImportDomain, ImportAll, FindingsFor, Effect, Tallied, WellFormed, Latest;
    DomainEffectOnSelf(t, hash, d, g, calls);
    RunSparesOthers(m, hash, es, rest, left, Tallied(y, v), d);
    FailureSticks(m, hash, es, rest, left, Tallied(y, v));
    EffectRests(t, m, u, hash, d, g);
  }

  lemma {:induction false} RunEffect(
      t: Tables, hash: string, es: seq<Entry>, ds: seq<string>, calls: nat, y: Tally, d: string)
    requires WellFormed(t) && Distinct(ds) && d in t.targets && d in ds
    ensures var (u, z) := ImportAll(t, hash, es, ds, calls, y);
            && u.targets == t.targets && Effect(t, u, hash, d, FindingsFor(es, d))
            && (!z.failed ==> (hash, d) in u.imports)
    decreases |ds|
  {
    var (u, z) := ImportAll(t, hash, es, ds, calls, y);
    if y.failed {
      assert u == t && z == y;
    } else if d == ds[0] {
      hide ImportAll;
      FirstEffect(t, hash, es, ds, calls, y);
    } else {
      var g, rest := FindingsFor(es, ds[0]), ds[1..];
      var (m, v, left) := ImportDomain(t, hash, ds[0], g, calls);
      assert (u, z) == ImportAll(m, hash, es, rest, left, Tallied(y, v));
      DomainEffect(t, hash, ds[0], g, calls, 0);
      hide View, Over, ImportDomain, ImportAll, FindingsFor, Effect, Tallied, WellFormed, Latest;
      DomainSparesOthers(t, hash, ds[0], g, calls, d);
      RunEffect(m, hash, es, rest, left, Tallied(y, v), d);
      EffectRests(t, m, u, hash, d, FindingsFor(es, d));
    }
  }

  // ----- Crashed and repeated imports -----

  /** Things that happen while a file is being imported: attempts that may fail anywhere, new targets, scans. */
  datatype Event =
    | Attempt(calls: nat)
    | AddTarget(domain: string)
    | Perimeter(domain: string, found: seq<Finding>)

  function Happen(t: Tables, hash: string, es: seq<Entry>, e: Event): Tables {
    match e
    case Attempt(calls) => Run(t, hash, es, calls).0
    case AddTarget(domain) =>
      if domain in t.targets then t
      else t.(targets := t.targets[domain := t.nextTarget], nextTarget := t.nextTarget + 1)
    case Perimeter(domain, found) =>
      if domain !in t.targets || exists i :: 0 <= i < |found| && found[i].modus == "import" then t
      else FinishScan(AppendTo(CreateScan(t, t.targets[domain], None), t.nextScan, found), t.nextScan)
  }

  function HappenAll(t: Tables, hash: string, es: seq<Entry>, events: seq<Event>): Tables
    decreases |events|
  {
    if events == [] then t else HappenAll(Happen(t, hash, es, events[0]), hash, es, events[1..])
  }

  /** How the halves of domain d compare when dirty went through attempts that clean did not. */
  predicate ShadowsOn(dirty: Tables, clean: Tables, hash: string, es: seq<Entry>, d: string)
    requires d in clean.targets && dirty.targets == clean.targets
  {
    if (hash, d) in clean.imports then (hash, d) in dirty.imports && View(dirty, d) == View(clean, d)
    else
      || ((hash, d) !in dirty.imports && View(dirty, d) == View(clean, d))
      || (d in Domains(es) && View(dirty, d) == Over(FindingsFor(es, d), View(clean, d)))
  }

  predicate Shadows(dirty: Tables, clean: Tables, hash: string, es: seq<Entry>) {
    && WellFormed(dirty) && WellFormed(clean)
    && dirty.targets == clean.targets && dirty.nextTarget == clean.nextTarget
    && forall d :: d in clean.targets ==> ShadowsOn(dirty, clean, hash, es, d)
  }

  lemma AttemptShadows(dirty: Tables, clean: Tables, hash: string, es: seq<Entry>, calls: nat)
    requires Shadows(dirty, clean, hash, es)
    ensures Shadows(Happen(dirty, hash, es, Attempt(calls)), clean, hash, es)
  {
    hide View, WellFormed, Over, ImportAll, Domains, FindingsFor;
    var zero := Tally(0, 0, 0, false);
    RunShape(dirty, hash, es, Domains(es), calls, zero);
    var u := Happen(dirty, hash, es, Attempt(calls));
    forall d | d in clean.targets ensures ShadowsOn(u, clean, hash, es, d) {
      assert ShadowsOn(dirty, clean, hash, es, d);
      if d in Domains(es) {
        RunEffect(dirty, hash, es, Domains(es), calls, zero, d);
      } else {
        RunSparesOthers(dirty, hash, es, Domains(es), calls, zero, d);
      }
      OverIdempotent(FindingsFor(es, d), View(clean, d));
    }
  }

  function TargetsAfter(targets: map<string, nat>, next: nat, e: Event): (map<string, nat>, nat) {
    if e.AddTarget? && e.domain !in targets then (targets[e.domain := next], next + 1) else (targets, next)
  }

  lemma {:induction false} NothingJoined(t: Tables, target: nat, rows: seq<Row>)
    requires forall i :: 0 <= i < |rows| ==> rows[i].scan in t.scans && t.scans[rows[i].scan].target != target
    ensures Join(t, target, rows) == []
  {
    if rows != [] {
      assert rows[0].scan in t.scans;
      NothingJoined(t, target, rows[1..]);
    }
  }

  lemma NothingShown(t: Tables, target: nat)
    requires forall i :: 0 <= i < |t.findings| ==>
             t.findings[i].scan in t.scans && t.scans[t.findings[i].scan].target != target
    ensures Latest(t, target) == []
  {
    hide Join;
    NothingJoined(t, target, t.findings);
  }

  lemma SameScansShowAlike(t: Tables, u: Tables, target: nat)
    requires WellFormed(t) && u.scans == t.scans && u.findings == t.findings
    ensures Latest(u, target) == Latest(t, target)
  {
    hide Join, Winners;
    JoinAgrees(t, u, target, t.findings);
  }

  lemma TargetKeepsViews(t: Tables, hash: string, es: seq<Entry>, e: Event)
    requires WellFormed(t) && e.AddTarget?
    ensures var u := Happen(t, hash, es, e);
            && WellFormed(u)
            && (forall d :: d in t.targets ==> View(u, d) == View(t, d))
            && (forall d :: d in u.targets && d !in t.targets ==> View(u, d) == [] && (hash, d) !in u.imports)
  {
    hide Latest;
    var u := Happen(t, hash, es, e);
    if u != t {
      forall d | d in t.targets ensures View(u, d) == View(t, d) {
        SameScansShowAlike(t, u, t.targets[d]);
      }
      NothingShown(u, t.nextTarget);
    }
  }

  lemma PerimeterKeepsViews(t: Tables, hash: string, es: seq<Entry>, e: Event)
    requires WellFormed(t) && e.Perimeter?
    ensures var u := Happen(t, hash, es, e);
            WellFormed(u) && u.targets == t.targets && forall d :: d in t.targets ==> View(u, d) == View(t, d)
  {
    hide Latest;
    var u, domain, found := Happen(t, hash, es, e), e.domain, e.found;
    if u != t {
      var created := CreateScan(t, t.targets[domain], None);
      forall d | d in t.targets ensures WellFormed(u) && View(u, d) == View(t, d) {
        CreateIsInvisible(t, t.targets[domain], None, t.targets[d]);
        PerimeterIsInvisible(created, t.nextScan, found, t.targets[d]);
        FinishIsInvisible(AppendTo(created, t.nextScan, found), t.nextScan, t.targets[d]);
      }
    }
  }

  lemma EventKeepsViews(t: Tables, hash: string, es: seq<Entry>, e: Event)
    requires WellFormed(t) && !e.Attempt?
    ensures var u := Happen(t, hash, es, e);
            && WellFormed(u) && u.imports == t.imports
            && (u.targets, u.nextTarget) == TargetsAfter(t.targets, t.nextTarget, e)
            && (forall d :: d in t.targets ==> View(u, d) == View(t, d))
            && (forall d :: d in u.targets && d !in t.targets ==> View(u, d) == [] && (hash, d) !in u.imports)
  {
    hide View, WellFormed;
    match e {
      case AddTarget(domain) => TargetKeepsViews(t, hash, es, e);
      case Perimeter(domain, found) => PerimeterKeepsViews(t, hash, es, e);
    }
  }

  lemma EventShadows(dirty: Tables, clean: Tables, hash: string, es: seq<Entry>, e: Event)
    requires Shadows(dirty, clean, hash, es) && !e.Attempt?
    ensures Shadows(Happen(dirty, hash, es, e), Happen(clean, hash, es, e), hash, es)
  {
    EventKeepsViews(dirty, hash, es, e);
    EventKeepsViews(clean, hash, es, e);
    var u, v := Happen(dirty, hash, es, e), Happen(clean, hash, es, e);
    forall d | d in v.targets ensures ShadowsOn(u, v, hash, es, d) {
      assert d in clean.targets ==> ShadowsOn(dirty, clean, hash, es, d);
    }
  }

  predicate NotAttempt(e: Event) {
    !e.Attempt?
  }

  lemma {:induction false} HistoryShadows(dirty: Tables, clean: Tables, hash: string, es: seq<Entry>,
                                          events: seq<Event>)
    requires Shadows(dirty, clean, hash, es)
    ensures Shadows(HappenAll(dirty, hash, es, events),
                    HappenAll(clean, hash, es, Filter(events, NotAttempt)), hash, es)
    decreases |events|
  {
    if events != [] {
      var e, rest := events[0], Filter(events[1..], NotAttempt);
      if e.Attempt? {
        AttemptShadows(dirty, clean, hash, es, e.calls);
        HistoryShadows(Happen(dirty, hash, es, e), clean, hash, es, events[1..]);
        assert Filter(events, NotAttempt) == rest;
      } else {
        EventShadows(dirty, clean, hash, es, e);
        HistoryShadows(Happen(dirty, hash, es, e), Happen(clean, hash, es, e), hash, es, events[1..]);
        assert Filter(events, NotAttempt) == [e] + rest;
        assert ([e] + rest)[1..] == rest;
      }
    }
  }

  /** A complete run lays the file's findings over each of its domains that has a target, once. */
  lemma CompleteRun(t: Tables, hash: string, es: seq<Entry>, calls: nat, d: string)
    requires WellFormed(t) && AllAccepted(es) && Enough(calls, Domains(es)) && d in t.targets
    ensures var (u, y) := Run(t, hash, es, calls);
            && !y.failed && u.targets == t.targets
            && ((hash, d) in u.imports <==> (hash, d) in t.imports || d in Domains(es))
            && View(u, d) ==
               if d in Domains(es) && (hash, d) !in t.imports then Over(FindingsFor(es, d), View(t, d)) else View(t, d)
  {
    var zero := Tally(0, 0, 0, false);
    RunShape(t, hash, es, Domains(es), calls, zero);
    if d in Domains(es) {
      RunEffect(t, hash, es, Domains(es), calls, zero, d);
    } else {
      RunSparesOthers(t, hash, es, Domains(es), calls, zero, d);
    }
  }

  /**
   * Any number of attempts at a file, each cut off after any number of store calls, among new
   * targets and perimeter scans: once a run completes, the import half of every target is what
   * one clean run leaves.
   */
  lemma CrashedImportsAreInvisible(
      t: Tables, hash: string, es: seq<Entry>, events: seq<Event>, calls: nat, cleanCalls: nat, d: string)
    requires WellFormed(t) && AllAccepted(es)
    requires Enough(calls, Domains(es)) && Enough(cleanCalls, Domains(es))
    requires d in HappenAll(t, hash, es, events).targets
    ensures var (dirty, y) := Run(HappenAll(t, hash, es, events), hash, es, calls);
            var (clean, z) := Run(HappenAll(t, hash, es, Filter(events, NotAttempt)), hash, es, cleanCalls);
            && !y.failed && !z.failed
            && d in dirty.targets && d in clean.targets && dirty.targets[d] == clean.targets[d]
            && View(dirty, d) == View(clean, d)
            && ((hash, d) in dirty.imports <==> (hash, d) in clean.imports)
  {
    HistoryShadows(t, t, hash, es, events);
    var dirty, clean := HappenAll(t, hash, es, events), HappenAll(t, hash, es, Filter(events, NotAttempt));
    assert ShadowsOn(dirty, clean, hash, es, d);
    CompleteRun(dirty, hash, es, calls, d);
    CompleteRun(clean, hash, es, cleanCalls, d);
    OverIdempotent(FindingsFor(es, d), View(clean, d));
  }

  // ----- Idempotence -----

  /** After a complete run its domains are recorded exactly when they have a target, however late it came. */
  lemma RunRecordsKnownDomains(t: Tables, hash: string, es: seq<Entry>, calls: nat, d: string)
    requires WellFormed(t) && AllAccepted(es) && Enough(calls, Domains(es)) && d in Domains(es)
    ensures (hash, d) in Run(t, hash, es, calls).0.imports <==> d in t.targets
  {
    var zero := Tally(0, 0, 0, false);
    RunShape(t, hash, es, Domains(es), calls, zero);
    if d in t.targets {
      RunEffect(t, hash, es, Domains(es), calls, zero, d);
    }
  }

  /** How many of ds have no target. */
  function Missing(targets: map<string, nat>, ds: seq<string>): nat {
    if ds == [] then 0 else (if ds[0] in targets then 0 else 1) + Missing(targets, ds[1..])
  }

  lemma {:induction false} RunCounts(t: Tables, hash: string, es: seq<Entry>, ds: seq<string>, calls: nat, y: Tally)
    requires WellFormed(t) && !ImportAll(t, hash, es, ds, calls, y).1.failed
    ensures var z := ImportAll(t, hash, es, ds, calls, y).1;
            && z.unknown == y.unknown + Missing(t.targets, ds)
            && z.imported + z.unknown + z.already == y.imported + y.unknown + y.already + |ds|
    decreases |ds|
  {
    if ds != [] && !y.failed {
      var g := FindingsFor(es, ds[0]);
      var (m, v, left) := ImportDomain(t, hash, ds[0], g, calls);
      FailureSticks(m, hash, es, ds[1..], left, Tallied(y, v));
      DomainEffect(t, hash, ds[0], g, calls, 0);
      VerdictMeans(t, hash, ds[0], g, calls);
      RunCounts(m, hash, es, ds[1..], left, Tallied(y, v));
    } else {
      FailureSticks(t, hash, es, ds, calls, y);
    }
  }

  lemma {:induction false} NothingToImport(t: Tables, hash: string, es: seq<Entry>, ds: seq<string>, calls: nat,
                                           y: Tally)
    requires forall d :: d in ds ==> ((hash, d) in t.imports <==> d in t.targets)
    requires Enough(calls, ds) && !y.failed
    ensures Missing(t.targets, ds) <= |ds|
    ensures ImportAll(t, hash, es, ds, calls, y) ==
            (t, y.(unknown := y.unknown + Missing(t.targets, ds), already := y.already + |ds| - Missing(t.targets, ds)))
    decreases |ds|
  {
    if ds != [] {
      var (m, v, left) := ImportDomain(t, hash, ds[0], FindingsFor(es, ds[0]), calls);
      assert ds[0] in ds && m == t;
      NothingToImport(t, hash, es, ds[1..], left, Tallied(y, v));
    }
  }

  /** A complete run's counters add up to its distinct domains, and repeating it at once changes nothing. */
  lemma RerunIsNoOp(t: Tables, hash: string, es: seq<Entry>, calls: nat, again: nat)
    requires WellFormed(t) && AllAccepted(es) && Enough(calls, Domains(es)) && Enough(again, Domains(es))
    ensures var (u, y) := Run(t, hash, es, calls);
            && !y.failed && y.imported + y.unknown + y.already == |Domains(es)|
            && Run(u, hash, es, again) == (u, Tally(0, y.unknown, y.imported + y.already, false))
  {
    hide WellFormed, AllAccepted, ImportAll, Missing;
    var zero, ds := Tally(0, 0, 0, false), Domains(es);
    RunShape(t, hash, es, ds, calls, zero);
    RunCounts(t, hash, es, ds, calls, zero);
    var u := Run(t, hash, es, calls).0;
    forall d | d in ds ensures (hash, d) in u.imports <==> d in u.targets {
      RunRecordsKnownDomains(t, hash, es, calls, d);
    }
    NothingToImport(u, hash, es, ds, again, zero);
  }
}
