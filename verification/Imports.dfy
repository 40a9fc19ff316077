/** The Internet.nl import (internal/scanner/netnlimport.go) and what its failures leave behind. */
module Imports {
  import opened Sequences
  import opened Findings
  import opened ImportCorrelation

  datatype Result = Result(test: string, category: string, status: string, verdict: string, detail: Value)

  /** One measurement, web or mail, of one domain. */
  datatype Entry = Entry(
    domain: string, typ: string, status: string, measuredAt: string, score: int, reportUrl: string,
    results: seq<Result>)

  /** What the parser lets through. */
  predicate Accepted(e: Entry) {
    e.domain != "" && (e.typ == "web" || e.typ == "mail") && e.status != "" && e.measuredAt != ""
  }

  function ResultSeverity(status: string): string {
    if status == "passed" || status == "not_tested" then "info"
    else if status == "info" then "observation"
    else if status == "warning" then "concern"
    else if status == "failed" then "finding"
    else if status == "error" then "concern"
    else "observation"
  }

  function DomainSeverity(status: string): string {
    if status == "error" then "concern" else "info"
  }

  function CommonAttrs(e: Entry): map<string, Value> {
    map["domain" := Text(e.domain), "type" := Text(e.typ), "measured_at" := Text(e.measuredAt),
        "score_percent" := Number(e.score), "report_url" := Text(e.reportUrl)]
  }

  function StatusFinding(e: Entry): Finding {
    Finding("", "internetnl." + e.typ + ".status", "import", "", "", e.domain, DomainSeverity(e.status),
            CommonAttrs(e)["status" := Text(e.status)], "")
  }

  function ResultFinding(e: Entry, r: Result): Finding {
    Finding("", "internetnl." + e.typ + "." + r.test, "import", "", "", e.domain, ResultSeverity(r.status),
            CommonAttrs(e)["test" := Text(r.test)]["category" := Text(r.category)]["status" := Text(r.status)]
                          ["verdict" := Text(r.verdict)]["detail" := r.detail], "")
  }

  predicate AllValid(fs: seq<Finding>) {
    forall i :: 0 <= i < |fs| ==> Valid(fs[i])
  }

  /** One finding per subtest, or a single status finding when nothing was tested. */
  function NetnlFindings(e: Entry): (fs: seq<Finding>)
    ensures fs != []
    ensures forall i :: 0 <= i < |fs| ==> fs[i].modus == "import" && TypeOf(fs[i]) == e.typ
    ensures Accepted(e) ==> AllValid(fs)
  {
    if e.results == [] then [StatusFinding(e)] else Map((r: Result) => ResultFinding(e, r), e.results)
  }

  /** The distinct domains of a file in order of first appearance. */
  function Domains(es: seq<Entry>): (ds: seq<string>)
    ensures Distinct(ds) && forall d :: d in ds <==> exists i :: 0 <= i < |es| && es[i].domain == d
  {
    if es == [] then []
    else
      var front, last := Domains(es[..|es| - 1]), es[|es| - 1];
      if last.domain in front then front else front + [last.domain]
  }

  /** Everything the file says about one domain. */
  function FindingsFor(es: seq<Entry>, domain: string): (fs: seq<Finding>)
    ensures forall i :: 0 <= i < |fs| ==> fs[i].modus == "import"
    ensures (forall i :: 0 <= i < |es| ==> Accepted(es[i])) ==> AllValid(fs)
  {
    if es == [] then []
    else (if es[0].domain == domain then NetnlFindings(es[0]) else []) + FindingsFor(es[1..], domain)
  }

  datatype Verdict = Already | Unknown | Imported | Failed

  /** The store after each write of one domain's import. */
  function Created(t: Tables, hash: string, domain: string): Tables
    requires domain in t.targets
  {
    CreateScan(t, t.targets[domain], Some((hash, domain)))
  }

  function Stored(t: Tables, hash: string, domain: string, fs: seq<Finding>): Tables
    requires domain in t.targets
  {
    AppendTo(Created(t, hash, domain), t.nextScan, fs)
  }

  function Finished(t: Tables, hash: string, domain: string, fs: seq<Finding>): Tables
    requires domain in t.targets
  {
    FinishScan(Stored(t, hash, domain, fs), t.nextScan)
  }

  function RecordImport(t: Tables, hash: string, domain: string): Tables {
    t.(imports := t.imports + {(hash, domain)})
  }

  function Recorded(t: Tables, hash: string, domain: string, fs: seq<Finding>): Tables
    requires domain in t.targets
  {
    RecordImport(Finished(t, hash, domain, fs), hash, domain)
  }

  /**
   * One domain of one run. calls is how many further store calls succeed before one fails,
   * which is also where a crash may fall; the answer carries how many are left.
   */
  function ImportDomain(t: Tables, hash: string, domain: string, fs: seq<Finding>, calls: nat): (Tables, Verdict, nat) {
    if calls < 1 then (t, Failed, 0)
    else if (hash, domain) in t.imports then (t, Already, calls - 1)
    else if calls < 2 then (t, Failed, 0)
    else if domain !in t.targets then (t, Unknown, calls - 2)
    else if calls < 3 then (t, Failed, 0)
    else if calls < 4 || !AllValid(fs) then (Created(t, hash, domain), Failed, 0)
    else if calls < 5 then (Stored(t, hash, domain, fs), Failed, 0)
    else if calls < 6 then (Finished(t, hash, domain, fs), Failed, 0)
    else (Recorded(t, hash, domain, fs), Imported, calls - 6)
  }

  datatype Tally = Tally(imported: nat, unknown: nat, already: nat, failed: bool)

  function Tallied(y: Tally, v: Verdict): Tally {
    match v
    case Imported => y.(imported := y.imported + 1)
    case Unknown => y.(unknown := y.unknown + 1)
    case Already => y.(already := y.already + 1)
    case Failed => y.(failed := true)
  }

  /** A run over the remaining domains, stopping at the first failure. */
  function ImportAll(t: Tables, hash: string, es: seq<Entry>, ds: seq<string>, calls: nat, y: Tally): (Tables, Tally)
    decreases |ds|
  {
    if ds == [] || y.failed then (t, y)
    else
      var (t', v, left) := ImportDomain(t, hash, ds[0], FindingsFor(es, ds[0]), calls);
      ImportAll(t', hash, es, ds[1..], left, Tallied(y, v))
  }

  function Run(t: Tables, hash: string, es: seq<Entry>, calls: nat): (Tables, Tally) {
    ImportAll(t, hash, es, Domains(es), calls, Tally(0, 0, 0, false))
  }

  lemma {:induction false} FindingsForConcat(a: seq<Entry>, b: seq<Entry>, domain: string)
    ensures FindingsFor(a + b, domain) == FindingsFor(a, domain) + FindingsFor(b, domain)
  {
    if a == [] {
      assert a + b == b;
    } else {
      assert (a + b)[1..] == a[1..] + b;
      FindingsForConcat(a[1..], b, domain);
    }
  }

  lemma FindingsForGrows(es: seq<Entry>, e: Entry)
    ensures forall d :: FindingsFor(es + [e], d) == FindingsFor(es, d) + if e.domain == d then NetnlFindings(e) else []
  {
    forall d ensures FindingsFor(es + [e], d) == FindingsFor(es, d) + if e.domain == d then NetnlFindings(e) else [] {
      FindingsForConcat(es, [e], d);
      assert [e][1..] == [];
    }
  }

  lemma {:induction false} NoFindingsBefore(es: seq<Entry>, d: string)
    requires forall i :: 0 <= i < |es| ==> es[i].domain != d
    ensures FindingsFor(es, d) == []
  {
    if es != [] {
      NoFindingsBefore(es[1..], d);
    }
  }

  /** The domains of es in order, each with its findings. */
  ghost predicate Grouped(es: seq<Entry>, order: seq<string>, byDomain: map<string, seq<Finding>>) {
    && order == Domains(es)
    && (forall d :: d in byDomain <==> d in order)
    && (forall d :: d in byDomain ==> byDomain[d] == FindingsFor(es, d))
  }

  lemma DomainsNext(es: seq<Entry>, e: Entry)
    ensures Domains(es + [e]) == if e.domain in Domains(es) then Domains(es) else Domains(es) + [e.domain]
  {
    assert (es + [e])[..|es|] == es;
  }

  lemma NoneFound(es: seq<Entry>, d: string)
    requires d !in Domains(es)
    ensures FindingsFor(es, d) == []
  {
    hide FindingsFor;
    NoFindingsBefore(es, d);
  }

  lemma GroupedNext(es: seq<Entry>, e: Entry, order: seq<string>, byDomain: map<string, seq<Finding>>)
    requires Grouped(es, order, byDomain)
    ensures Grouped(es + [e], if e.domain in byDomain then order else order + [e.domain],
                    byDomain[e.domain := (if e.domain in byDomain then byDomain[e.domain] else []) + NetnlFindings(e)])
  {
    hide Domains, FindingsFor, NetnlFindings, AllValid, Accepted;
    DomainsNext(es, e);
    FindingsForGrows(es, e);
    if e.domain !in byDomain {
      NoneFound(es, e.domain);
    }
  }

  /** The store as the importer uses it; calls counts the store calls that will still succeed. */
  class Importer {
    var tables: Tables
    var calls: nat

    constructor (tables: Tables, calls: nat)
      ensures this.tables == tables && this.calls == calls
    {
      this.tables, this.calls := tables, calls;
    }

    /** Reads the joined rows newest first and keeps each type's first scan. */
    method LatestImportFindings(target: nat) returns (out: seq<Finding>)
      ensures out == Latest(tables, target)
    {
      var joined := Join(tables, target, tables.findings);
      StreamIsSpec(joined);
      hide Stream, NewestFirst, Winners, Join, TypeOf;
      var rows := NewestFirst(joined);
      var winners: map<string, nat> := map[];
      var kept: seq<Joined> := [];
      assert rows[0..] == rows;
      for i := 0 to |rows|
        invariant Stream(rows, map[]) == kept + Stream(rows[i..], winners)
      {
        StreamStep(rows, i, winners, kept);
        var typ := TypeOf(rows[i].finding);
        if typ !in winners {
          winners := winners[typ := rows[i].scan];
        }
        if rows[i].scan != winners[typ] {
          continue;
        }
        kept := kept + [rows[i]];
      }
      StreamEnds(rows, winners);
      assert kept + [] == kept;
      out := FindingsOf(kept);
    }

    /** The scan's own findings other than imports, then the correlated imports. */
    method FindingsForAssessment(target: nat, own: seq<Finding>) returns (out: seq<Finding>)
      ensures out == Filter(own, (f: Finding) => f.modus != "import") + Latest(tables, target)
    {
      var imported := LatestImportFindings(target);
      out := [];
      var p := (f: Finding) => f.modus != "import";
      for i := 0 to |own|
        invariant out == Filter(own[..i], p)
      {
        PrefixStep(own, i);
        FilterConcat(own[..i], [own[i]], p);
        if own[i].modus == "import" {
          continue;
        }
        out := out + [own[i]];
      }
      assert own[..|own|] == own;
      out := out + imported;
    }

    method ImportOne(hash: string, domain: string, fs: seq<Finding>) returns (v: Verdict)
      modifies this
      ensures (tables, v, calls) == ImportDomain(old(tables), hash, domain, fs, old(calls))
    {
      if calls < 1 { calls := 0; return Failed; }
      calls := calls - 1;
      if (hash, domain) in tables.imports { return Already; }
      if calls < 1 { calls := 0; return Failed; }
      calls := calls - 1;
      if domain !in tables.targets { return Unknown; }
      if calls < 1 { calls := 0; return Failed; }
      calls := calls - 1;
      var scan := tables.nextScan;
      tables := CreateScan(tables, tables.targets[domain], Some((hash, domain)));
      if calls < 1 || !AllValid(fs) { calls := 0; return Failed; }
      calls := calls - 1;
      tables := AppendTo(tables, scan, fs);
      if calls < 1 { calls := 0; return Failed; }
      calls := calls - 1;
      tables := FinishScan(tables, scan);
      if calls < 1 { calls := 0; return Failed; }
      calls := calls - 1;
      tables := RecordImport(tables, hash, domain);
      return Imported;
    }

    method GroupByDomain(es: seq<Entry>) returns (order: seq<string>, byDomain: map<string, seq<Finding>>)
      ensures Grouped(es, order, byDomain)
    {
      byDomain, order := map[], [];
      assert Grouped(es[..0], order, byDomain);
      hide Grouped, NetnlFindings;
      for i := 0 to |es|
        invariant Grouped(es[..i], order, byDomain)
      {
        PrefixStep(es, i);
        GroupedNext(es[..i], es[i], order, byDomain);
        var d := es[i].domain;
        if d !in byDomain {
          order := order + [d];
        }
        byDomain := byDomain[d := (if d in byDomain then byDomain[d] else []) + NetnlFindings(es[i])];
      }
      assert es[..|es|] == es;
    }

    /** Imports the file's domains in order of first appearance, one scan per known domain. */
    method ImportNetnlDomains(hash: string, es: seq<Entry>) returns (y: Tally)
      modifies this
      ensures (tables, y) == Run(old(tables), hash, es, old(calls))
    {
      var order, byDomain := GroupByDomain(es);
      y := Tally(0, 0, 0, false);
      for i := 0 to |order|
        invariant Run(old(tables), hash, es, old(calls)) == ImportAll(tables, hash, es, order[i..], calls, y)
        invariant !y.failed
      {
        assert order[i..][0] == order[i] && order[i..][1..] == order[i + 1..];
        var v := ImportOne(hash, order[i], byDomain[order[i]]);
        y := Tallied(y, v);
        if y.failed {
          return;
        }
      }
    }
  }
}
