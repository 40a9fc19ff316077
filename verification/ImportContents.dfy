/** What an import writes, finding by finding and column by column (internal/scanner/netnlimport.go). */
module ImportContents {
  import opened Sequences
  import opened Findings
  import opened ImportCorrelation
  import opened Imports
  import opened ImportTheorems

  /** The severity a test's status calls for. */
  predicate SeverityFits(severity: string, status: string) {
    && (severity == "finding" <==> status == "failed")
    && (severity == "concern" <==> status == "warning" || status == "error")
    && (severity == "info" <==> status == "passed" || status == "not_tested")
    && (severity == "observation" <==> status !in {"failed", "warning", "error", "passed", "not_tested"})
  }

  /** f comes from entry e: its attributes about the measurement. */
  predicate IsOf(f: Finding, e: Entry) {
    && f.id == "" && f.modus == "import" && f.subject == e.domain
    && {"domain", "type", "status", "measured_at", "score_percent", "report_url"} <= f.attrs.Keys
    && f.attrs["domain"] == Text(e.domain) && f.attrs["type"] == Text(e.typ)
    && f.attrs["measured_at"] == Text(e.measuredAt) && f.attrs["report_url"] == Text(e.reportUrl)
    && f.attrs["score_percent"] == Number(e.score)
  }

  /** f says all that result r of e says. */
  predicate Tells(f: Finding, e: Entry, r: Result) {
    && IsOf(f, e) && f.probe == "internetnl." + e.typ + "." + r.test && SeverityFits(f.severity, r.status)
    && {"test", "category", "verdict", "detail"} <= f.attrs.Keys
    && f.attrs["test"] == Text(r.test) && f.attrs["category"] == Text(r.category)
    && f.attrs["status"] == Text(r.status) && f.attrs["verdict"] == Text(r.verdict) && f.attrs["detail"] == r.detail
  }

  /** f says that e was measured and nothing was tested. */
  predicate TellsStatus(f: Finding, e: Entry) {
    && IsOf(f, e) && f.probe == "internetnl." + e.typ + ".status" && f.attrs["status"] == Text(e.status)
    && f.severity == (if e.status == "error" then "concern" else "info")
  }

  /** fs is one finding per result of e in order, or the one about its status. */
  predicate TellsAll(fs: seq<Finding>, e: Entry) {
    if e.results == [] then |fs| == 1 && TellsStatus(fs[0], e)
    else |fs| == |e.results| && forall i :: 0 <= i < |fs| ==> Tells(fs[i], e, e.results[i])
  }

  lemma ResultIsTold(e: Entry, r: Result)
    ensures Tells(ResultFinding(e, r), e, r)
  {
    hide Accepted;
  }

  /** Every subtest becomes a finding with all it says, and an entry without any its status. */
  lemma NetnlTellsAll(e: Entry)
    ensures TellsAll(NetnlFindings(e), e)
  {
    if e.results != [] {
      var fs := NetnlFindings(e);
      hide Tells, ResultFinding;
      forall i | 0 <= i < |fs| ensures Tells(fs[i], e, e.results[i]) {
        ResultIsTold(e, e.results[i]);
      }
    }
  }

  function About(d: string): Entry -> bool {
    (e: Entry) => e.domain == d
  }

  /** What a file says of a domain is what its entries about that domain say, one after the other. */
  lemma {:induction false} FindingsForEntries(es: seq<Entry>, d: string) returns (parts: seq<seq<Finding>>)
    ensures FindingsFor(es, d) == Flatten(parts)
    ensures var own := Filter(es, About(d));
            |parts| == |own| && forall i :: 0 <= i < |own| ==> TellsAll(parts[i], own[i])
  {
    parts := [];
    if es != [] {
      hide NetnlFindings, TellsAll;
      parts := FindingsForEntries(es[1..], d);
      if es[0].domain == d {
        NetnlTellsAll(es[0]);
        parts := [NetnlFindings(es[0])] + parts;
      }
    }
  }

  // ----- One domain's import -----

  /**
   * u is t after the import of fs for domain: one new scan of its target, complete and started after all others, with
   * exactly the findings fs, and the record.
   */
  predicate ImportedInto(t: Tables, u: Tables, hash: string, domain: string, fs: seq<Finding>) {
    && domain in t.targets && u.targets == t.targets && u.nextTarget == t.nextTarget
    && t.nextScan !in t.scans && u.nextScan == t.nextScan + 1
    && u.scans == t.scans[t.nextScan := Scan(t.targets[domain], u.clock, "complete", Some((hash, domain)))]
    && (forall id :: id in t.scans ==> t.scans[id].startedAt < u.clock)
    && |u.findings| == |t.findings| + |fs| && u.findings[..|t.findings|] == t.findings
    && (forall i :: 0 <= i < |fs| ==> u.findings[|t.findings| + i] == Row(t.nextScan, fs[i]))
    && u.imports == t.imports + {(hash, domain)}
  }

  /** With enough calls a known domain that is not recorded is imported, and nothing else happens. */
  lemma ImportWrites(t: Tables, hash: string, domain: string, fs: seq<Finding>, calls: nat)
    requires WellFormed(t) && AllValid(fs) && calls >= 6
    ensures var (u, v, left) := ImportDomain(t, hash, domain, fs, calls);
            && (v.Already? <==> (hash, domain) in t.imports)
            && (v.Unknown? <==> domain !in t.targets)
            && (v.Imported? <==> domain in t.targets && (hash, domain) !in t.imports)
            && (if v.Imported? then ImportedInto(t, u, hash, domain, fs) else u == t)
  {
    hide AllValid;
    var (u, v, _) := ImportDomain(t, hash, domain, fs, calls);
    if v.Imported? {
      assert u.findings == t.findings + Map((f: Finding) => Row(t.nextScan, f), fs);
    }
  }

  /**
   * What an import leaves when a store call fails or the program dies after calls of them: nothing at all, or one new
   * scan that is running and empty, running with all findings, complete with all findings, or that and the record.
   */
  predicate LeftBy(t: Tables, u: Tables, hash: string, domain: string, fs: seq<Finding>, calls: nat) {
    if calls < 3 || (hash, domain) in t.imports || domain !in t.targets then u == t
    else
      && u.targets == t.targets && u.scans.Keys == t.scans.Keys + {t.nextScan}
      && (forall id :: id in t.scans ==> u.scans[id] == t.scans[id])
      && u.scans[t.nextScan].target == t.targets[domain] && u.scans[t.nextScan].origin == Some((hash, domain))
      && u.scans[t.nextScan].status == (if calls < 5 || !AllValid(fs) then "running" else "complete")
      && |t.findings| <= |u.findings| && u.findings[..|t.findings|] == t.findings
      && (if calls < 4 || !AllValid(fs) then |u.findings| == |t.findings|
          else
            && |u.findings| == |t.findings| + |fs|
            && forall i :: 0 <= i < |fs| ==> u.findings[|t.findings| + i] == Row(t.nextScan, fs[i]))
      && u.imports == (if calls < 6 || !AllValid(fs) then t.imports else t.imports + {(hash, domain)})
  }

  /** A domain is recorded only after its scan is complete, and that only after its findings are stored. */
  lemma CrashLeaves(t: Tables, hash: string, domain: string, fs: seq<Finding>, calls: nat)
    requires WellFormed(t)
    ensures LeftBy(t, ImportDomain(t, hash, domain, fs, calls).0, hash, domain, fs, calls)
  {
    hide AllValid;
    var u := ImportDomain(t, hash, domain, fs, calls).0;
    var rows := Map((f: Finding) => Row(t.nextScan, f), fs);
    if calls >= 3 && (hash, domain) !in t.imports && domain in t.targets {
      assert u.findings == t.findings || u.findings == t.findings + rows;
    }
  }

  // ----- A whole run -----

  function IsRecorded(t: Tables, hash: string): string -> bool {
    (d: string) => (hash, d) in t.imports
  }

  function IsMissing(t: Tables): string -> bool {
    (d: string) => d !in t.targets
  }

  function IsNew(t: Tables, hash: string): string -> bool {
    (d: string) => d in t.targets && (hash, d) !in t.imports
  }

  lemma {:induction false} CountsAfter(t: Tables, u: Tables, hash: string, d: string, ds: seq<string>)
    requires d !in ds && u.targets == t.targets && (u.imports == t.imports || u.imports == t.imports + {(hash, d)})
    ensures Count(ds, IsRecorded(u, hash)) == Count(ds, IsRecorded(t, hash))
    ensures Count(ds, IsMissing(u)) == Count(ds, IsMissing(t)) && Count(ds, IsNew(u, hash)) == Count(ds, IsNew(t, hash))
  {
    if ds != [] {
      assert ds[0] in ds;
      CountsAfter(t, u, hash, d, ds[1..]);
    }
  }

  /** The three counters of a run that does not fail. */
  lemma {:induction false} RunTallies(t: Tables, hash: string, es: seq<Entry>, ds: seq<string>, calls: nat, y: Tally)
    requires WellFormed(t) && Distinct(ds) && AllAccepted(es) && Enough(calls, ds) && !y.failed
    ensures var z := ImportAll(t, hash, es, ds, calls, y).1;
            && !z.failed && z.imported == y.imported + Count(ds, IsNew(t, hash))
            && z.unknown == y.unknown + Count(ds, IsMissing(t))
            && z.already == y.already + Count(ds, IsRecorded(t, hash))
    decreases |ds|
  {
    if ds != [] {
      var g := FindingsFor(es, ds[0]);
      var (m, v, left) := ImportDomain(t, hash, ds[0], g, calls);
      ImportWrites(t, hash, ds[0], g, calls);
      VerdictMeans(t, hash, ds[0], g, calls);
      DomainEffect(t, hash, ds[0], g, calls, 0);
      hide ImportDomain, ImportedInto, FindingsFor, WellFormed, AllValid, Accepted;
      CountsAfter(t, m, hash, ds[0], ds[1..]);
      RunTallies(m, hash, es, ds[1..], left, Tallied(y, v));
    }
  }

  /** A complete run counts the domains it imported, those without a target and those it had seen before. */
  lemma CountersTell(t: Tables, hash: string, es: seq<Entry>, calls: nat)
    requires WellFormed(t) && AllAccepted(es) && Enough(calls, Domains(es))
    ensures Run(t, hash, es, calls).1 ==
            Tally(Count(Domains(es), IsNew(t, hash)), Count(Domains(es), IsMissing(t)),
                  Count(Domains(es), IsRecorded(t, hash)), false)
  {
    RunTallies(t, hash, es, Domains(es), calls, Tally(0, 0, 0, false));
  }

  lemma {:induction false} EntryIsTold(es: seq<Entry>, e: Entry)
    requires e in es
    ensures forall f :: f in NetnlFindings(e) ==> f in FindingsFor(es, e.domain)
  {
    hide NetnlFindings;
    if es[0] != e {
      EntryIsTold(es[1..], e);
    }
  }

  /**
   * After a complete first run the assessor sees every test of every entry about a known domain, failed ones included.
   */
  lemma EveryTestShows(t: Tables, hash: string, es: seq<Entry>, calls: nat, e: Entry, i: nat)
    requires WellFormed(t) && AllAccepted(es) && Enough(calls, Domains(es))
    requires e in es && e.domain in t.targets && (hash, e.domain) !in t.imports && i < |e.results|
    ensures var u := Run(t, hash, es, calls).0;
            e.domain in u.targets && exists f :: f in View(u, e.domain) && Tells(f, e, e.results[i])
  {
    CompleteRun(t, hash, es, calls, e.domain);
    NetnlTellsAll(e);
    EntryIsTold(es, e);
    var f := NetnlFindings(e)[i];
    assert e.domain in Domains(es) by {
      var k :| 0 <= k < |es| && es[k] == e;
      assert es[k].domain == e.domain;
    }
    hide View, Tells, NetnlFindings, FindingsFor;
    assert Tells(f, e, e.results[i]) && f in Over(FindingsFor(es, e.domain), View(t, e.domain));
  }
}
