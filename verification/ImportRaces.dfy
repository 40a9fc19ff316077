/**
 * Imports running at once, store call by store call (internal/scanner/netnlimport.go, internal/store/netnlimport.go).
 */
module ImportRaces {
  import opened Sequences
  import opened Findings
  import opened ImportCorrelation
  import opened Imports
  import opened ImportTheorems

  /** Which store call an importer makes next for the domain at the head of its list. */
  datatype Stage =
    | Checking | Looking | Creating(target: nat) | Appending(scan: nat) | Finishing(scan: nat) | Recording(scan: nat)

  /** One run over one file; it stops for good when a call fails. */
  datatype Importer = Importer(hash: string, es: seq<Entry>, todo: seq<string>, stage: Stage, failed: bool)

  datatype World = World(tables: Tables, importers: seq<Importer>)

  datatype Step =
    | Begin(hash: string, es: seq<Entry>)
    | Advance(i: nat, works: bool)      // importer i makes its next store call, which works or fails
    | NewTarget(domain: string)
    | OtherScan(target: nat, found: seq<Finding>)

  function NextDomain(p: Importer): Importer
    requires p.todo != []
  {
    p.(todo := p.todo[1..], stage := Checking)
  }

  /** One store call and what it leads to. Recording a pair that is already recorded fails on the table's key. */
  function Call(t: Tables, p: Importer): (Tables, Importer)
    requires p.todo != []
  {
    var d := p.todo[0];
    match p.stage
    case Checking => (t, if (p.hash, d) in t.imports then NextDomain(p) else p.(stage := Looking))
    case Looking => (t, if d in t.targets then p.(stage := Creating(t.targets[d])) else NextDomain(p))
    case Creating(target) => (CreateScan(t, target, Some((p.hash, d))), p.(stage := Appending(t.nextScan)))
    case Appending(scan) =>
      if AllValid(FindingsFor(p.es, d)) then (AppendTo(t, scan, FindingsFor(p.es, d)), p.(stage := Finishing(scan)))
      else (t, p.(failed := true))
    case Finishing(scan) => (if scan in t.scans then FinishScan(t, scan) else t, p.(stage := Recording(scan)))
    case Recording(_) =>
      if (p.hash, d) in t.imports then (t, p.(failed := true)) else (RecordImport(t, p.hash, d), NextDomain(p))
  }

  predicate Enabled(w: World, s: Step) {
    s.Advance? ==> s.i < |w.importers| && w.importers[s.i].todo != [] && !w.importers[s.i].failed
  }

  function Apply(w: World, s: Step): World
    requires Enabled(w, s)
  {
    match s
    case Begin(hash, es) => w.(importers := w.importers + [Importer(hash, es, Domains(es), Checking, false)])
    case Advance(i, works) =>
      var p := w.importers[i];
      if works then
        var (t, q) := Call(w.tables, p);
        World(t, w.importers[i := q])
      else w.(importers := w.importers[i := p.(failed := true)])
    case NewTarget(domain) => w.(tables := Happen(w.tables, "", [], AddTarget(domain)))
    case OtherScan(target, found) =>
      w.(tables := AppendTo(CreateScan(w.tables, target, None), w.tables.nextScan, found))
  }

  /** The world after the steps of trace, or None when one of them is not enabled. */
  function Interleave(w: World, trace: seq<Step>): Option<World>
    decreases |trace|
  {
    if trace == [] then Some(w)
    else if !Enabled(w, trace[0]) then None
    else Interleave(Apply(w, trace[0]), trace[1..])
  }

  predicate HasScan(s: Stage) {
    s.Appending? || s.Finishing? || s.Recording?
  }

  /** The importers that have created a scan for (hash, domain) and not recorded it. */
  function Unrecorded(hash: string, d: string): Importer -> bool {
    (p: Importer) => p.todo != [] && p.hash == hash && p.todo[0] == d && HasScan(p.stage)
  }

  /** The import scans made for (hash, domain). */
  function ScansFor(t: Tables, hash: string, d: string): set<nat> {
    set id | id in t.scans && t.scans[id].origin == Some((hash, d))
  }

  function Recorded(t: Tables, hash: string, d: string): nat {
    if (hash, d) in t.imports then 1 else 0
  }

  /** Every import scan is accounted for: it is recorded, or its importer has not got that far. */
  ghost predicate Balanced(w: World) {
    && (forall id :: id in w.tables.scans ==> id < w.tables.nextScan)
    && forall h, d :: |ScansFor(w.tables, h, d)| == Recorded(w.tables, h, d) + Count(w.importers, Unrecorded(h, d))
  }

  /** The empty store, where every history starts. */
  lemma EmptyIsBalanced(t: Tables)
    requires t.scans == map[] && t.imports == {}
    ensures Balanced(World(t, []))
  {
    forall h, d ensures |ScansFor(t, h, d)| == Recorded(t, h, d) + Count([], Unrecorded(h, d)) {
      assert ScansFor(t, h, d) == {};
    }
  }

  lemma NewScan(t: Tables, target: nat, hash: string, domain: string, h: string, d: string)
    requires forall id :: id in t.scans ==> id < t.nextScan
    ensures |ScansFor(CreateScan(t, target, Some((hash, domain))), h, d)| ==
            |ScansFor(t, h, d)| + if (h, d) == (hash, domain) then 1 else 0
  {
    var before, after := ScansFor(t, h, d), ScansFor(CreateScan(t, target, Some((hash, domain))), h, d);
    if h == hash && d == domain {
      assert t.nextScan !in before && after == before + {t.nextScan};
    } else {
      assert Some((hash, domain)) != Some((h, d));
      assert after == before;
    }
  }

  lemma SameScans(t: Tables, p: Importer, h: string, d: string)
    requires p.todo != [] && !p.stage.Creating?
    ensures ScansFor(Call(t, p).0, h, d) == ScansFor(t, h, d)
  {
    hide FindingsFor, AllValid;
  }

  /** A call other than creating a scan records the pair exactly when its importer stops owing it. */
  lemma CallRecords(t: Tables, p: Importer, h: string, d: string)
    requires p.todo != [] && !p.stage.Creating?
    ensures var (u, q) := Call(t, p);
            Recorded(t, h, d) + (if Unrecorded(h, d)(p) then 1 else 0) ==
            Recorded(u, h, d) + (if Unrecorded(h, d)(q) then 1 else 0)
  {
    hide FindingsFor, AllValid;
  }

  /** A call changes the scans made and recorded for a pair as it changes its importer's state. */
  lemma CallScans(t: Tables, p: Importer, h: string, d: string)
    requires p.todo != [] && forall id :: id in t.scans ==> id < t.nextScan
    ensures var (u, q) := Call(t, p);
            |ScansFor(u, h, d)| + Recorded(t, h, d) + (if Unrecorded(h, d)(p) then 1 else 0)
            == |ScansFor(t, h, d)| + Recorded(u, h, d) + (if Unrecorded(h, d)(q) then 1 else 0)
  {
    if p.stage.Creating? {
      NewScan(t, p.stage.target, p.hash, p.todo[0], h, d);
      hide ScansFor;
    } else {
      hide Call, ScansFor, Recorded, Unrecorded;
      SameScans(t, p, h, d);
      CallRecords(t, p, h, d);
    }
  }

  lemma CallBalances(w: World, i: nat)
    requires Balanced(w) && Enabled(w, Advance(i, true))
    ensures Balanced(Apply(w, Advance(i, true)))
  {
    var p := w.importers[i];
    var (t, q) := Call(w.tables, p);
    var v := World(t, w.importers[i := q]);
    assert forall id :: id in t.scans ==> id < t.nextScan;
    forall h, d ensures |ScansFor(t, h, d)| == Recorded(t, h, d) + Count(v.importers, Unrecorded(h, d)) {
      CountUpdate(w.importers, i, q, Unrecorded(h, d));
      CallScans(w.tables, p, h, d);
    }
  }

  lemma StepBalances(w: World, s: Step)
    requires Balanced(w) && Enabled(w, s)
    ensures Balanced(Apply(w, s))
  {
    var v := Apply(w, s);
    hide Call, Unrecorded, Domains;
    match s
    case Begin(hash, es) =>
      forall h, d ensures Count(v.importers, Unrecorded(h, d)) == Count(w.importers, Unrecorded(h, d)) {
        CountConcat(w.importers, [Importer(hash, es, Domains(es), Checking, false)], Unrecorded(h, d));
      }
    case Advance(i, works) =>
      if works {
        CallBalances(w, i);
      } else {
        forall h, d ensures Count(v.importers, Unrecorded(h, d)) == Count(w.importers, Unrecorded(h, d)) {
          CountUpdate(w.importers, i, v.importers[i], Unrecorded(h, d));
        }
      }
    case NewTarget(_) =>
      assert forall h, d :: ScansFor(v.tables, h, d) == ScansFor(w.tables, h, d);
    case OtherScan(_, _) =>
      assert forall h, d :: ScansFor(v.tables, h, d) == ScansFor(w.tables, h, d);
  }

  lemma {:induction false} AlwaysBalanced(w: World, trace: seq<Step>)
    requires Balanced(w) && Interleave(w, trace).Some?
    ensures Balanced(Interleave(w, trace).value)
    decreases |trace|
  {
    if trace != [] {
      StepBalances(w, trace[0]);
      AlwaysBalanced(Apply(w, trace[0]), trace[1..]);
    }
  }

  /** No importer stands between creating a scan for (hash, domain) and recording it, running or failed. */
  predicate NonePending(w: World, hash: string, d: string) {
    forall p :: p in w.importers ==> !Unrecorded(hash, d)(p)
  }

  /**
   * In every interleaving of imports, store call by store call, with failures anywhere: (hash, domain) is recorded
   * exactly if one scan was made for it, and never two, at those times when no importer is between creating and
   * recording, and at no other time.
   */
  lemma RecordedIffScannedOnce(w: World, trace: seq<Step>, hash: string, d: string)
    requires Balanced(w) && Interleave(w, trace).Some?
    ensures var v := Interleave(w, trace).value;
            NonePending(v, hash, d) <==>
            |ScansFor(v.tables, hash, d)| <= 1
              && ((hash, d) in v.tables.imports <==> |ScansFor(v.tables, hash, d)| == 1)
  {
    AlwaysBalanced(w, trace);
    var v := Interleave(w, trace).value;
    CountPositive(v.importers, Unrecorded(hash, d));
  }

  /** So from an empty store, which every history starts from. */
  lemma FromEmptyStore(t: Tables, trace: seq<Step>, hash: string, d: string)
    requires t.scans == map[] && t.imports == {} && Interleave(World(t, []), trace).Some?
    ensures var v := Interleave(World(t, []), trace).value;
            NonePending(v, hash, d) <==>
            |ScansFor(v.tables, hash, d)| <= 1
              && ((hash, d) in v.tables.imports <==> |ScansFor(v.tables, hash, d)| == 1)
  {
    EmptyIsBalanced(t);
    RecordedIffScannedOnce(World(t, []), trace, hash, d);
  }

  /** All importers have come to the end of their files. */
  predicate AllDone(w: World) {
    forall p :: p in w.importers ==> p.todo == [] && !p.failed
  }

  /** In particular once all importers are done without a failure. */
  lemma FailureFreeRuns(w: World, trace: seq<Step>, hash: string, d: string)
    requires Balanced(w) && Interleave(w, trace).Some? && AllDone(Interleave(w, trace).value)
    ensures var v := Interleave(w, trace).value;
            |ScansFor(v.tables, hash, d)| <= 1
              && ((hash, d) in v.tables.imports <==> |ScansFor(v.tables, hash, d)| == 1)
  {
    RecordedIffScannedOnce(w, trace, hash, d);
  }

  lemma {:induction false} ScansRemain(w: World, trace: seq<Step>, hash: string, d: string)
    requires Balanced(w) && Interleave(w, trace).Some?
    ensures |ScansFor(w.tables, hash, d)| <= |ScansFor(Interleave(w, trace).value.tables, hash, d)|
    decreases |trace|
  {
    if trace != [] {
      var v := Apply(w, trace[0]);
      StepBalances(w, trace[0]);
      forall id | id in ScansFor(w.tables, hash, d) ensures id in ScansFor(v.tables, hash, d) {
        assert id < w.tables.nextScan;
      }
      SubsetSize(ScansFor(w.tables, hash, d), ScansFor(v.tables, hash, d));
      ScansRemain(v, trace[1..], hash, d);
    }
  }

  /** Two importers about to create a scan for the same pair both do. */
  lemma BothCreate(w: World, i: nat, j: nat)
    requires Balanced(w) && i != j && Enabled(w, Advance(i, true)) && Enabled(w, Advance(j, true))
    requires var p, q := w.importers[i], w.importers[j];
             p.stage.Creating? && q.stage.Creating? && p.hash == q.hash && p.todo[0] == q.todo[0]
    ensures var p := w.importers[i];
            |ScansFor(Apply(Apply(w, Advance(i, true)), Advance(j, true)).tables, p.hash, p.todo[0])| >= 2
  {
    var p, q := w.importers[i], w.importers[j];
    var u := Apply(w, Advance(i, true));
    NewScan(w.tables, p.stage.target, p.hash, p.todo[0], p.hash, p.todo[0]);
    CallBalances(w, i);
    assert u.importers[j] == q;
    NewScan(u.tables, q.stage.target, q.hash, q.todo[0], p.hash, p.todo[0]);
  }

  /** Two importers that both got past the check collide: however the run goes on, not all of them can finish. */
  lemma DoubleScanFails(w: World, trace: seq<Step>, hash: string, d: string)
    requires Balanced(w) && Interleave(w, trace).Some? && |ScansFor(w.tables, hash, d)| >= 2
    ensures !AllDone(Interleave(w, trace).value)
  {
    ScansRemain(w, trace, hash, d);
    if AllDone(Interleave(w, trace).value) {
      FailureFreeRuns(w, trace, hash, d);
      assert false;
    }
  }

  /** n store calls in a row by one importer. */
  function Calls(t: Tables, p: Importer, n: nat): (Tables, Importer)
    decreases n
  {
    if n == 0 || p.todo == [] || p.failed then (t, p)
    else
      var (u, q) := Call(t, p);
      Calls(u, q, n - 1)
  }

  /** Alone, an importer does to each domain of a storable file what the uninterrupted import does. */
  lemma AloneIsImportDomain(t: Tables, p: Importer)
    requires p.todo != [] && p.stage.Checking? && !p.failed && AllValid(FindingsFor(p.es, p.todo[0]))
    ensures var d := p.todo[0];
            var n := if (p.hash, d) in t.imports then 1 else if d !in t.targets then 2 else 6;
            Calls(t, p, n) == (ImportDomain(t, p.hash, d, FindingsFor(p.es, d), 6).0, NextDomain(p))
  {
    var d := p.todo[0];
    var fs := FindingsFor(p.es, d);
    if (p.hash, d) !in t.imports && d in t.targets {
      var q := p.(stage := Looking);
      var c := p.(stage := Creating(t.targets[d]));
      var scan := t.nextScan;
      assert Calls(t, p, 6) == Calls(t, q, 5);
      assert Calls(t, q, 5) == Calls(t, c, 4);
      assert Calls(t, c, 4) == Calls(Created(t, p.hash, d), p.(stage := Appending(scan)), 3);
      assert Calls(Created(t, p.hash, d), p.(stage := Appending(scan)), 3) ==
        Calls(Stored(t, p.hash, d, fs), p.(stage := Finishing(scan)), 2);
      assert Calls(Stored(t, p.hash, d, fs), p.(stage := Finishing(scan)), 2) ==
        Calls(Finished(t, p.hash, d, fs), p.(stage := Recording(scan)), 1);
    }
  }
}
