/** Importers of one file that run at once, call by call, crash and start again: what the assessor sees in the end. */
module ImportConverges {
  import opened Sequences
  import opened Findings
  import opened ImportCorrelation
  import opened Imports
  import opened ImportTheorems
  import R = ImportRaces

  /** Importers import this file, and the other scans are perimeter scans of known targets. */
  predicate Proper(w: R.World, s: R.Step, hash: string, es: seq<Entry>) {
    match s
    case Begin(h, fs) => h == hash && fs == es
    case OtherScan(target, found) =>
      target < w.tables.nextTarget && forall i :: 0 <= i < |found| ==> found[i].modus != "import"
    case _ => true
  }

  predicate AllProper(w: R.World, trace: seq<R.Step>, hash: string, es: seq<Entry>)
    requires R.Interleave(w, trace).Some?
    decreases |trace|
  {
    trace == [] || (Proper(w, trace[0], hash, es) && AllProper(R.Apply(w, trace[0]), trace[1..], hash, es))
  }

  // ----- What the importers hold on to -----

  /** Scans from first on started after all scans with smaller IDs. */
  predicate InOrder(t: Tables, first: nat) {
    forall a, b :: a in t.scans && b in t.scans && a < b && first <= b ==> t.scans[a].startedAt < t.scans[b].startedAt
  }

  predicate Sound(t: Tables, first: nat) {
    WellFormed(t) && first <= t.nextScan && InOrder(t, first)
  }

  predicate NoRows(t: Tables, scan: nat) {
    forall i :: 0 <= i < |t.findings| ==> t.findings[i].scan != scan
  }

  /** What an importer's next call relies on. */
  predicate Fits(t: Tables, p: R.Importer, first: nat) {
    p.todo != [] ==>
      match p.stage
      case Creating(target) => p.todo[0] in t.targets && target == t.targets[p.todo[0]]
      case Appending(scan) =>
        && p.todo[0] in t.targets && scan in t.scans && first <= scan
        && t.scans[scan].target == t.targets[p.todo[0]] && NoRows(t, scan)
      case Finishing(scan) => p.todo[0] in t.targets && scan in t.scans
      case Recording(_) => p.todo[0] in t.targets
      case _ => true
  }

  /** scan is p's own, still without findings. */
  predicate Fills(p: R.Importer, scan: nat) {
    p.todo != [] && p.stage == R.Appending(scan)
  }

  ghost predicate Apart(ps: seq<R.Importer>) {
    forall i, j, scan :: 0 <= i < j < |ps| && Fills(ps[i], scan) ==> !Fills(ps[j], scan)
  }

  ghost predicate Tidy(w: R.World, hash: string, es: seq<Entry>, first: nat) {
    && Sound(w.tables, first) && Apart(w.importers)
    && forall p :: p in w.importers ==>
         p.hash == hash && p.es == es && (forall e :: e in p.todo ==> e in Domains(es)) && Fits(w.tables, p, first)
  }

  /** Scans and targets stay what they are. */
  predicate Grows(t: Tables, u: Tables) {
    && (forall id :: id in t.scans ==> id in u.scans && u.scans[id].target == t.scans[id].target)
    && (forall e :: e in t.targets ==> e in u.targets && u.targets[e] == t.targets[e])
  }

  /** New rows, if any, are of one scan. */
  predicate RowsFrom(t: Tables, u: Tables, scan: nat) {
    forall r :: r in u.findings ==> r in t.findings || r.scan == scan
  }

  lemma FitsStill(t: Tables, u: Tables, p: R.Importer, first: nat, scan: nat)
    requires Fits(t, p, first) && Grows(t, u) && RowsFrom(t, u, scan) && !Fills(p, scan)
    ensures Fits(u, p, first)
  {
  }

  /** The scan whose rows a call may add to. */
  function Filled(t: Tables, p: R.Importer): nat {
    if p.stage.Appending? then p.stage.scan else t.nextScan
  }

  lemma CreateSound(t: Tables, target: nat, origin: Option<(string, string)>, first: nat)
    requires Sound(t, first) && target < t.nextTarget
    ensures var u := CreateScan(t, target, origin); Sound(u, first) && Grows(t, u) && NoRows(u, t.nextScan)
  {
    var u := CreateScan(t, target, origin);
    assert WellFormed(u);
    assert forall a, b :: a in u.scans && b in u.scans && a < b ==> a in t.scans;
  }

  lemma AppendSound(t: Tables, scan: nat, fs: seq<Finding>, first: nat)
    requires Sound(t, first) && scan in t.scans
    ensures var u := AppendTo(t, scan, fs); Sound(u, first) && Grows(t, u) && RowsFrom(t, u, scan)
  {
    var u := AppendTo(t, scan, fs);
    assert forall i :: |t.findings| <= i < |u.findings| ==> u.findings[i].scan == scan;
  }

  lemma FinishSound(t: Tables, scan: nat, first: nat)
    requires Sound(t, first) && scan in t.scans
    ensures var u := FinishScan(t, scan); Sound(u, first) && Grows(t, u)
  {
    var u := FinishScan(t, scan);
    assert u.scans.Keys == t.scans.Keys;
    assert forall id :: id in t.scans ==> u.scans[id].startedAt == t.scans[id].startedAt;
  }

  lemma RecordSound(t: Tables, hash: string, d: string, first: nat)
    requires Sound(t, first) && d in t.targets
    ensures Sound(RecordImport(t, hash, d), first)
  {
  }

  /** What a call of p leaves in order. */
  ghost predicate Keeps(t: Tables, p: R.Importer, u: Tables, q: R.Importer, first: nat) {
    && Sound(u, first) && Grows(t, u) && RowsFrom(t, u, Filled(t, p)) && Fits(u, q, first)
    && q.hash == p.hash && q.es == p.es && (forall e :: e in q.todo ==> e in p.todo)
    && (forall scan :: Fills(q, scan) ==> Fills(p, scan) || scan == t.nextScan)
  }

  lemma CreatingKeeps(t: Tables, p: R.Importer, first: nat)
    requires Sound(t, first) && p.todo != [] && Fits(t, p, first) && p.stage.Creating?
    ensures var (u, q) := R.Call(t, p); Keeps(t, p, u, q, first)
  {
    CreateSound(t, p.stage.target, Some((p.hash, p.todo[0])), first);
    hide InOrder;
  }

  lemma AppendingKeeps(t: Tables, p: R.Importer, first: nat)
    requires Sound(t, first) && p.todo != [] && Fits(t, p, first) && p.stage.Appending?
    ensures var (u, q) := R.Call(t, p); Keeps(t, p, u, q, first)
  {
    hide FindingsFor, AllValid;
    AppendSound(t, p.stage.scan, FindingsFor(p.es, p.todo[0]), first);
    hide Sound, AppendTo;
  }

  lemma FinishingKeeps(t: Tables, p: R.Importer, first: nat)
    requires Sound(t, first) && p.todo != [] && Fits(t, p, first) && p.stage.Finishing?
    ensures var (u, q) := R.Call(t, p); Keeps(t, p, u, q, first)
  {
    FinishSound(t, p.stage.scan, first);
    hide Sound;
  }

  lemma OthersKeep(t: Tables, p: R.Importer, first: nat)
    requires Sound(t, first) && p.todo != [] && Fits(t, p, first)
    requires p.stage.Checking? || p.stage.Looking? || p.stage.Recording?
    ensures var (u, q) := R.Call(t, p); Keeps(t, p, u, q, first)
  {
    if p.stage.Recording? { RecordSound(t, p.hash, p.todo[0], first); }
    hide Sound;
  }

  lemma CallKeeps(t: Tables, p: R.Importer, first: nat)
    requires Sound(t, first) && p.todo != [] && Fits(t, p, first)
    ensures var (u, q) := R.Call(t, p); Keeps(t, p, u, q, first)
  {
    hide Sound, Fits, R.Call, Keeps;
    match p.stage
    case Creating(_) => CreatingKeeps(t, p, first);
    case Appending(_) => AppendingKeeps(t, p, first);
    case Finishing(_) => FinishingKeeps(t, p, first);
    case _ => OthersKeep(t, p, first);
  }

  /** No other importer relies on the scan a call may add rows to. */
  lemma OthersSpared(t: Tables, ps: seq<R.Importer>, i: nat, j: nat, first: nat)
    requires WellFormed(t) && Apart(ps) && i < |ps| && j < |ps| && i != j
    requires ps[i].todo != [] && Fits(t, ps[i], first) && Fits(t, ps[j], first)
    ensures !Fills(ps[j], Filled(t, ps[i])) && !Fills(ps[j], t.nextScan)
  {
    if ps[i].stage.Appending? {
      assert Fills(ps[i], ps[i].stage.scan);
    }
  }

  lemma StillApart(ps: seq<R.Importer>, i: nat, q: R.Importer, next: nat)
    requires Apart(ps) && i < |ps| && (forall scan :: Fills(q, scan) ==> Fills(ps[i], scan) || scan == next)
    requires forall j :: 0 <= j < |ps| && j != i ==> !Fills(ps[j], next)
    ensures Apart(ps[i := q])
  {
    hide Fills;
  }

  lemma AdvanceTidy(w: R.World, i: nat, hash: string, es: seq<Entry>, first: nat)
    requires Tidy(w, hash, es, first) && R.Enabled(w, R.Advance(i, true))
    ensures Tidy(R.Apply(w, R.Advance(i, true)), hash, es, first)
  {
    var t, ps, p := w.tables, w.importers, w.importers[i];
    var (u, q) := R.Call(t, p);
    assert WellFormed(t) && p in ps && Fits(t, p, first);
    hide Sound, WellFormed, R.Call, Fits, Filled, Grows, RowsFrom, Fills, Apart;
    CallKeeps(t, p, first);
    forall j | 0 <= j < |ps| && j != i ensures !Fills(ps[j], t.nextScan) && Fits(u, ps[j], first) {
      assert ps[j] in ps;
      OthersSpared(t, ps, i, j, first);
      FitsStill(t, u, ps[j], first, Filled(t, p));
    }
    StillApart(ps, i, q, t.nextScan);
    forall x | x in ps[i := q]
      ensures x.hash == hash && x.es == es && (forall e :: e in x.todo ==> e in Domains(es)) && Fits(u, x, first)
    {
      var j :| 0 <= j < |ps| && ps[i := q][j] == x;
      assert ps[j] in ps;
    }
  }

  lemma NewScanIsFree(t: Tables, p: R.Importer, first: nat)
    requires WellFormed(t) && Fits(t, p, first)
    ensures !Fills(p, t.nextScan)
  {
  }

  /** Tables that only grow, by rows of a new scan. */
  lemma GrowingTidy(w: R.World, u: Tables, hash: string, es: seq<Entry>, first: nat)
    requires Tidy(w, hash, es, first) && Sound(u, first) && Grows(w.tables, u)
             && RowsFrom(w.tables, u, w.tables.nextScan)
    ensures Tidy(w.(tables := u), hash, es, first)
  {
    assert WellFormed(w.tables);
    hide Sound, WellFormed, Apart, RowsFrom, Grows;
    forall p | p in w.importers ensures Fits(u, p, first) {
      FitsStill(w.tables, u, p, first, w.tables.nextScan) by { NewScanIsFree(w.tables, p, first); }
    }
  }

  lemma BeginTidy(w: R.World, hash: string, es: seq<Entry>, first: nat)
    requires Tidy(w, hash, es, first)
    ensures Tidy(R.Apply(w, R.Begin(hash, es)), hash, es, first)
  {
    hide Sound;
  }

  lemma FailTidy(w: R.World, i: nat, hash: string, es: seq<Entry>, first: nat)
    requires Tidy(w, hash, es, first) && i < |w.importers|
    ensures Tidy(w.(importers := w.importers[i := w.importers[i].(failed := true)]), hash, es, first)
  {
    hide Sound;
    var p := w.importers[i];
    assert p in w.importers && Fits(w.tables, p.(failed := true), first);
    hide Fits, NoRows;
  }

  lemma TargetSound(t: Tables, d: string, first: nat)
    requires Sound(t, first)
    ensures var u := Happen(t, "", [], AddTarget(d)); Sound(u, first) && Grows(t, u)
  {
    var u := Happen(t, "", [], AddTarget(d));
    assert WellFormed(u);
    hide WellFormed;
  }

  lemma TargetTidy(w: R.World, d: string, hash: string, es: seq<Entry>, first: nat)
    requires Tidy(w, hash, es, first)
    ensures Tidy(w.(tables := Happen(w.tables, "", [], AddTarget(d))), hash, es, first)
  {
    TargetSound(w.tables, d, first);
    hide Sound, Grows, Happen;
    GrowingTidy(w, Happen(w.tables, "", [], AddTarget(d)), hash, es, first);
  }

  lemma OtherScanTidy(w: R.World, target: nat, found: seq<Finding>, hash: string, es: seq<Entry>, first: nat)
    requires Tidy(w, hash, es, first) && target < w.tables.nextTarget
    ensures Tidy(R.Apply(w, R.OtherScan(target, found)), hash, es, first)
  {
    var t := w.tables;
    CreateSound(t, target, None, first);
    AppendSound(CreateScan(t, target, None), t.nextScan, found, first);
    hide Sound;
    GrowingTidy(w, AppendTo(CreateScan(t, target, None), t.nextScan, found), hash, es, first);
  }

  lemma StepTidy(w: R.World, s: R.Step, hash: string, es: seq<Entry>, first: nat)
    requires Tidy(w, hash, es, first) && R.Enabled(w, s) && Proper(w, s, hash, es)
    ensures Tidy(R.Apply(w, s), hash, es, first)
  {
    hide Tidy;
    match s
    case Begin(_, _) => BeginTidy(w, hash, es, first);
    case Advance(i, works) =>
      if works { AdvanceTidy(w, i, hash, es, first); } else { FailTidy(w, i, hash, es, first); }
    case NewTarget(d) => TargetTidy(w, d, hash, es, first);
    case OtherScan(target, found) => OtherScanTidy(w, target, found, hash, es, first);
  }

  // ----- What the assessor sees of one domain -----

  function ImportsOf(t: Tables, target: nat): set<Row> {
    set r | r in t.findings && IsImport(t, target, r)
  }

  predicate Carries(rows: set<Row>, scan: nat, f: Finding) {
    exists r :: r in rows && r.scan == scan && TypeOf(r.finding) == TypeOf(f)
  }

  /** top is the newest scan with imports, and it has all types of g. */
  predicate IsTop(rows: set<Row>, g: seq<Finding>, first: nat, top: nat) {
    && first <= top && (forall r :: r in rows ==> r.scan <= top)
    && forall i :: 0 <= i < |g| ==> Carries(rows, top, g[i])
  }

  /** What target has by way of imports: base alone, or base with g laid over it once some import has landed. */
  ghost predicate Shows(rows: set<Row>, latest: seq<Finding>, g: seq<Finding>, base: seq<Finding>, first: nat,
                        landed: bool) {
    if landed then latest == Over(g, base) && exists top :: IsTop(rows, g, first, top)
    else latest == base && forall r :: r in rows ==> r.scan < first
  }

  ghost predicate ShowsIn(t: Tables, d: string, g: seq<Finding>, base: seq<Finding>, first: nat, landed: bool)
    requires d in t.targets
  {
    Shows(ImportsOf(t, t.targets[d]), View(t, d), g, base, first, landed)
  }

  /** The tables show the same imports of target. */
  ghost predicate Alike(t: Tables, u: Tables, target: nat) {
    ImportsOf(u, target) == ImportsOf(t, target) && Latest(u, target) == Latest(t, target)
  }

  /** Rows that are no imports of target do not enter. */
  lemma SameImports(t: Tables, u: Tables, target: nat)
    requires WellFormed(t) && Grows(t, u) && t.findings <= u.findings
    requires forall r :: r in u.findings[|t.findings|..] ==> !IsImport(u, target, r)
    ensures ImportsOf(u, target) == ImportsOf(t, target)
  {
    assert u.findings == t.findings + u.findings[|t.findings|..];
    forall r | r in t.findings ensures IsImport(t, target, r) == IsImport(u, target, r) {
      var i :| 0 <= i < |t.findings| && t.findings[i] == r;
      assert t.findings[i].scan in t.scans;
    }
  }

  lemma OlderThanNew(t: Tables, target: nat, scan: nat, first: nat)
    requires Sound(t, first) && scan in t.scans && first <= scan
    requires forall r :: r in ImportsOf(t, target) ==> r.scan < scan
    ensures forall i :: 0 <= i < |t.findings| && IsImport(t, target, t.findings[i]) ==>
            OlderScan(t, t.findings[i].scan, scan)
  {
    forall i | 0 <= i < |t.findings| && IsImport(t, target, t.findings[i])
      ensures OlderScan(t, t.findings[i].scan, scan) {
      assert t.findings[i] in ImportsOf(t, target);
    }
  }

  /** The rows after g arrived in scan. */
  lemma ArrivedRows(t: Tables, scan: nat, g: seq<Finding>, target: nat)
    requires WellFormed(t) && scan in t.scans && t.scans[scan].target == target && AllImports(g)
    ensures var rows := ImportsOf(AppendTo(t, scan, g), target);
            && (forall r :: r in rows ==> r in ImportsOf(t, target) || r.scan == scan)
            && (forall r :: r in ImportsOf(t, target) ==> r in rows)
            && (forall i :: 0 <= i < |g| ==> Row(scan, g[i]) in rows)
  {
    var u := AppendTo(t, scan, g);
    var added := Map((f: Finding) => Row(scan, f), g);
    assert u.findings == t.findings + added;
    forall i | 0 <= i < |g| ensures Row(scan, g[i]) in ImportsOf(u, target) {
      assert added[i] in added && added[i] == Row(scan, g[i]);
    }
  }

  lemma LandsOnTop(t: Tables, d: string, scan: nat, g: seq<Finding>, base: seq<Finding>, first: nat, landed: bool)
    requires Sound(t, first) && d in t.targets && scan in t.scans && first <= scan && AllImports(g)
    requires t.scans[scan].target == t.targets[d] && ShowsIn(t, d, g, base, first, landed)
    requires forall r :: r in ImportsOf(t, t.targets[d]) ==> r.scan < scan
    ensures ShowsIn(AppendTo(t, scan, g), d, g, base, first, true)
  {
    var target, u := t.targets[d], AppendTo(t, scan, g);
    OlderThanNew(t, target, scan, first);
    NewestImport(t, target, scan, g, target);
    OverIdempotent(g, base);
    ArrivedRows(t, scan, g, target);
    hide Sound, ImportsOf, Over, Latest;
    var rows := ImportsOf(u, target);
    forall i | 0 <= i < |g| ensures Carries(rows, scan, g[i]) {
      assert Row(scan, g[i]) in rows;
    }
    assert IsTop(rows, g, first, scan);
  }

  lemma LandsBelow(t: Tables, d: string, scan: nat, g: seq<Finding>, base: seq<Finding>, first: nat, top: nat)
    requires Sound(t, first) && d in t.targets && scan in t.scans && first <= scan < top && AllImports(g)
    requires t.scans[scan].target == t.targets[d] && ShowsIn(t, d, g, base, first, true) && NoRows(t, scan)
    requires IsTop(ImportsOf(t, t.targets[d]), g, first, top)
    ensures ShowsIn(AppendTo(t, scan, g), d, g, base, first, true)
  {
    var target, u := t.targets[d], AppendTo(t, scan, g);
    forall i | 0 <= i < |g| ensures Superseded(t, target, scan, g[i]) {
      assert Carries(ImportsOf(t, target), top, g[i]);
      var r :| r in ImportsOf(t, target) && r.scan == top && TypeOf(r.finding) == TypeOf(g[i]);
      assert OlderScan(t, scan, top);
    }
    LateImportIsInvisible(t, scan, g, target);
    ArrivedRows(t, scan, g, target);
    hide Sound, ImportsOf, Over, Latest;
    forall i | 0 <= i < |g| ensures Carries(ImportsOf(u, target), top, g[i]) {
      assert Carries(ImportsOf(t, target), top, g[i]);
    }
    assert IsTop(ImportsOf(u, target), g, first, top);
  }

  /** Wherever its scan stands, an import that lands makes the half show the file. */
  lemma Lands(t: Tables, d: string, scan: nat, g: seq<Finding>, base: seq<Finding>, first: nat, landed: bool)
    requires Sound(t, first) && d in t.targets && scan in t.scans && first <= scan && AllImports(g)
    requires t.scans[scan].target == t.targets[d] && ShowsIn(t, d, g, base, first, landed) && NoRows(t, scan)
    ensures ShowsIn(AppendTo(t, scan, g), d, g, base, first, true)
  {
    var rows := ImportsOf(t, t.targets[d]);
    if landed {
      var top :| IsTop(rows, g, first, top);
      if g == [] {
        assert AppendTo(t, scan, g).findings == t.findings;
        assert AppendTo(t, scan, g) == t;
      } else if scan < top {
        LandsBelow(t, d, scan, g, base, first, top);
      } else {
        assert scan != top by {
          assert Carries(rows, top, g[0]);
        }
        LandsOnTop(t, d, scan, g, base, first, landed);
      }
    } else {
      LandsOnTop(t, d, scan, g, base, first, landed);
    }
  }

  // ----- Every interleaving -----

  lemma CreateAlike(t: Tables, x: nat, origin: Option<(string, string)>, seen: nat)
    requires WellFormed(t) && x < t.nextTarget
    ensures Alike(t, CreateScan(t, x, origin), seen)
  {
    CreateIsInvisible(t, x, origin, seen);
    assert CreateScan(t, x, origin).findings[|t.findings|..] == [];
    hide Latest;
    SameImports(t, CreateScan(t, x, origin), seen);
  }

  lemma FinishAlike(t: Tables, scan: nat, seen: nat)
    requires WellFormed(t) && scan in t.scans
    ensures Alike(t, FinishScan(t, scan), seen)
  {
    FinishIsInvisible(t, scan, seen);
    assert FinishScan(t, scan).findings[|t.findings|..] == [];
    hide Latest;
    SameImports(t, FinishScan(t, scan), seen);
  }

  lemma RecordAlike(t: Tables, hash: string, e: string, seen: nat)
    requires WellFormed(t) && e in t.targets
    ensures Alike(t, RecordImport(t, hash, e), seen)
  {
    RecordIsInvisible(t, hash, e, seen);
    hide Latest;
    assert RecordImport(t, hash, e).findings[|t.findings|..] == [];
    SameImports(t, RecordImport(t, hash, e), seen);
  }

  lemma AppendAlike(t: Tables, scan: nat, fs: seq<Finding>, seen: nat)
    requires WellFormed(t) && scan in t.scans
    requires (AllImports(fs) && t.scans[scan].target != seen) || forall i :: 0 <= i < |fs| ==> fs[i].modus != "import"
    ensures Alike(t, AppendTo(t, scan, fs), seen)
  {
    var u := AppendTo(t, scan, fs);
    var added := Map((f: Finding) => Row(scan, f), fs);
    assert u.findings == t.findings + added && u.findings[|t.findings|..] == added;
    forall r | r in added ensures !IsImport(u, seen, r) {
      var i :| 0 <= i < |added| && added[i] == r;
      assert r == Row(scan, fs[i]);
    }
    SameImports(t, u, seen);
    hide Latest, ImportsOf, AppendTo;
    if AllImports(fs) && t.scans[scan].target != seen {
      OtherTargetIsUntouched(t, scan, fs, seen);
    } else {
      PerimeterIsInvisible(t, scan, fs, seen);
    }
  }

  /** The call that stores the findings of d. */
  predicate Stores(p: R.Importer, d: string) {
    p.todo != [] && p.todo[0] == d && p.stage.Appending? && AllValid(FindingsFor(p.es, d))
  }

  lemma SelfAlike(t: Tables, seen: nat)
    ensures Alike(t, t, seen)
  {
  }

  /** Any other call shows nowhere at d's target. */
  lemma CallAlike(t: Tables, p: R.Importer, d: string, first: nat)
    requires Sound(t, first) && p.todo != [] && Fits(t, p, first) && d in t.targets && !Stores(p, d)
    ensures Alike(t, R.Call(t, p).0, t.targets[d])
  {
    var e, seen := p.todo[0], t.targets[d];
    assert WellFormed(t);
    hide AllValid, Alike, Sound, FindingsFor;
    assert Alike(t, t, seen) by { SelfAlike(t, seen); }
    match p.stage
    case Creating(x) => CreateAlike(t, x, Some((p.hash, e)), seen);
    case Appending(scan) =>
      if AllValid(FindingsFor(p.es, e)) { AppendAlike(t, scan, FindingsFor(p.es, e), seen); }
    case Finishing(scan) => FinishAlike(t, scan, seen);
    case Recording(_) => RecordAlike(t, p.hash, e, seen);
    case _ =>
  }

  /** p has stored the findings of d and not yet recorded them. */
  predicate Past(p: R.Importer, d: string) {
    p.todo != [] && p.todo[0] == d && (p.stage.Finishing? || p.stage.Recording?)
  }

  /** The findings of d must have landed. */
  predicate Owed(w: R.World, hash: string, d: string) {
    (hash, d) in w.tables.imports || exists p :: p in w.importers && Past(p, d)
  }

  ghost predicate Right(w: R.World, hash: string, es: seq<Entry>, d: string, base: seq<Finding>, first: nat) {
    var t, g := w.tables, FindingsFor(es, d);
    && (d in t.targets ==> ShowsIn(t, d, g, base, first, true) || ShowsIn(t, d, g, base, first, false))
    && (d !in t.targets ==> base == [])
    && (Owed(w, hash, d) ==> d in t.targets && ShowsIn(t, d, g, base, first, true))
    && ((hash, d) in t.imports ==> d in Domains(es))
  }

  lemma AlikeShows(t: Tables, u: Tables, d: string, g: seq<Finding>, base: seq<Finding>, first: nat, landed: bool)
    requires d in t.targets && d in u.targets && u.targets[d] == t.targets[d] && Alike(t, u, t.targets[d])
    requires ShowsIn(t, d, g, base, first, landed)
    ensures ShowsIn(u, d, g, base, first, landed)
  {
    hide ImportsOf, Latest, IsTop, Over;
  }

  /** What a call owes afterwards it owed before, unless it is the one that stores. */
  lemma CallOwes(t: Tables, p: R.Importer, hash: string, d: string)
    requires p.todo != [] && p.hash == hash
    ensures var (u, q) := R.Call(t, p);
            && (Past(q, d) ==> Past(p, d) || Stores(p, d))
            && ((hash, d) in u.imports ==> (hash, d) in t.imports || (Past(p, d) && d in p.todo))
  {
    hide FindingsFor, AllValid;
  }

  /** One working call, as far as d is concerned. */
  lemma CallShows(t: Tables, p: R.Importer, d: string, base: seq<Finding>, first: nat, landed: bool)
    requires Sound(t, first) && p.todo != [] && Fits(t, p, first) && d in t.targets
    requires ShowsIn(t, d, FindingsFor(p.es, d), base, first, landed)
    ensures var u := R.Call(t, p).0;
            d in u.targets && ShowsIn(u, d, FindingsFor(p.es, d), base, first, landed || Stores(p, d))
  {
    var g := FindingsFor(p.es, d);
    CallKeeps(t, p, first);
    if Stores(p, d) {
      hide Keeps, ShowsIn, Sound, AllValid, FindingsFor;
      Lands(t, d, p.stage.scan, g, base, first, landed);
    } else {
      CallAlike(t, p, d, first);
      hide R.Call, ShowsIn, Alike, Sound;
      AlikeShows(t, R.Call(t, p).0, d, g, base, first, landed);
    }
  }

  lemma CallTargets(t: Tables, p: R.Importer)
    requires p.todo != []
    ensures R.Call(t, p).0.targets == t.targets
  {
  }

  lemma StoresKnown(t: Tables, p: R.Importer, d: string, first: nat)
    requires Fits(t, p, first) && Stores(p, d)
    ensures d in t.targets
  {
  }

  /** Who first comes to owe d has just stored it. */
  lemma OwesOnlyStored(w: R.World, i: nat, hash: string, d: string)
    requires R.Enabled(w, R.Advance(i, true)) && w.importers[i].hash == hash
    requires Owed(R.Apply(w, R.Advance(i, true)), hash, d) && !Owed(w, hash, d)
    ensures Stores(w.importers[i], d)
  {
    var ps, p := w.importers, w.importers[i];
    var (u, q) := R.Call(w.tables, p);
    assert p in ps;
    hide R.Call, Stores, Past;
    CallOwes(w.tables, p, hash, d);
    if x :| x in ps[i := q] && Past(x, d) {
      var j :| 0 <= j < |ps| && ps[i := q][j] == x;
      assert ps[j] in ps;
    }
  }

  lemma AdvanceRight(w: R.World, i: nat, hash: string, es: seq<Entry>, d: string, base: seq<Finding>, first: nat)
    requires Tidy(w, hash, es, first) && Right(w, hash, es, d, base, first) && R.Enabled(w, R.Advance(i, true))
    ensures Right(R.Apply(w, R.Advance(i, true)), hash, es, d, base, first)
  {
    var t, p, v := w.tables, w.importers[i], R.Apply(w, R.Advance(i, true));
    var (u, q) := R.Call(t, p);
    assert p in w.importers && Fits(t, p, first);
    hide Sound, Fits, R.Call, FindingsFor, Stores, Past, ShowsIn, Apart;
    CallTargets(t, p);
    CallOwes(t, p, hash, d);
    if d in t.targets {
      var before := Owed(w, hash, d) || ShowsIn(t, d, FindingsFor(es, d), base, first, true);
      CallShows(t, p, d, base, first, before);
    }
    if Stores(p, d) { StoresKnown(t, p, d, first); }
    if Owed(v, hash, d) && !Owed(w, hash, d) {
      OwesOnlyStored(w, i, hash, d);
    }
  }

  lemma FailRight(w: R.World, i: nat, hash: string, es: seq<Entry>, d: string, base: seq<Finding>, first: nat)
    requires Right(w, hash, es, d, base, first) && i < |w.importers|
    ensures Right(w.(importers := w.importers[i := w.importers[i].(failed := true)]), hash, es, d, base, first)
  {
    hide ShowsIn, FindingsFor;
    var ps, p := w.importers, w.importers[i];
    var qs := ps[i := p.(failed := true)];
    forall q | q in qs && Past(q, d) ensures Owed(w, hash, d) {
      var j :| 0 <= j < |qs| && qs[j] == q;
      assert ps[j] in ps && Past(ps[j], d);
    }
  }

  lemma BeginRight(w: R.World, hash: string, es: seq<Entry>, d: string, base: seq<Finding>, first: nat)
    requires Right(w, hash, es, d, base, first)
    ensures Right(R.Apply(w, R.Begin(hash, es)), hash, es, d, base, first)
  {
    hide ShowsIn, FindingsFor;
  }

  /** Tables alike at d's target, with the same targets and records. */
  lemma AlikeRight(w: R.World, u: Tables, hash: string, es: seq<Entry>, d: string, base: seq<Finding>, first: nat)
    requires Right(w, hash, es, d, base, first) && u.imports == w.tables.imports
             && (d in u.targets <==> d in w.tables.targets)
    requires d in u.targets ==> u.targets[d] == w.tables.targets[d] && Alike(w.tables, u, u.targets[d])
    ensures Right(w.(tables := u), hash, es, d, base, first)
  {
    hide ShowsIn, FindingsFor, Alike;
    if d in u.targets {
      var g := FindingsFor(es, d);
      forall landed: bool | ShowsIn(w.tables, d, g, base, first, landed) ensures ShowsIn(u, d, g, base, first, landed) {
        AlikeShows(w.tables, u, d, g, base, first, landed);
      }
    }
  }

  /** A domain that becomes a target has no imports. */
  lemma NewTargetShows(t: Tables, d: string, g: seq<Finding>, first: nat)
    requires WellFormed(t) && d !in t.targets
    ensures var u := Happen(t, "", [], AddTarget(d)); d in u.targets && ShowsIn(u, d, g, [], first, false)
  {
    var u := Happen(t, "", [], AddTarget(d));
    TargetKeepsViews(t, "", [], AddTarget(d));
    hide Latest;
    forall r | r in t.findings ensures !IsImport(u, t.nextTarget, r) {
      var i :| 0 <= i < |t.findings| && t.findings[i] == r;
      assert t.findings[i].scan in t.scans;
    }
    assert ImportsOf(u, t.nextTarget) == {};
  }

  lemma TargetGrows(t: Tables, e: string)
    ensures var u := Happen(t, "", [], AddTarget(e));
            && Grows(t, u) && u.findings == t.findings
            && forall d :: d in t.targets ==> d in u.targets && u.targets[d] == t.targets[d]
  {
  }

  lemma TargetAlike(t: Tables, e: string, d: string)
    requires WellFormed(t) && d in t.targets
    ensures var u := Happen(t, "", [], AddTarget(e));
            d in u.targets && u.targets[d] == t.targets[d] && Alike(t, u, t.targets[d])
  {
    var u := Happen(t, "", [], AddTarget(e));
    hide Latest, Happen, Grows, WellFormed, ImportsOf, IsImport;
    TargetGrows(t, e);
    TargetKeepsViews(t, "", [], AddTarget(e));
    assert u.findings[|t.findings|..] == [];
    SameImports(t, u, t.targets[d]);
  }

  lemma TargetRight(w: R.World, e: string, hash: string, es: seq<Entry>, d: string, base: seq<Finding>, first: nat)
    requires WellFormed(w.tables) && Right(w, hash, es, d, base, first)
    ensures Right(w.(tables := Happen(w.tables, "", [], AddTarget(e))), hash, es, d, base, first)
  {
    var t, u := w.tables, Happen(w.tables, "", [], AddTarget(e));
    assert u.imports == t.imports && u.targets.Keys == t.targets.Keys + {e};
    hide WellFormed, ShowsIn, FindingsFor, Happen, Alike, Past;
    if d in t.targets {
      TargetAlike(t, e, d);
      AlikeRight(w, u, hash, es, d, base, first);
    } else if d == e {
      NewTargetShows(t, d, FindingsFor(es, d), first);
    }
  }

  lemma OtherScanAlike(t: Tables, x: nat, found: seq<Finding>, seen: nat)
    requires WellFormed(t) && x < t.nextTarget && forall i :: 0 <= i < |found| ==> found[i].modus != "import"
    ensures Alike(t, AppendTo(CreateScan(t, x, None), t.nextScan, found), seen)
  {
    CreateIsInvisible(t, x, None, seen);
    CreateAlike(t, x, None, seen);
    hide WellFormed, Latest, ImportsOf, AppendTo;
    AppendAlike(CreateScan(t, x, None), t.nextScan, found, seen);
  }

  lemma OtherScanRight(w: R.World, x: nat, found: seq<Finding>, hash: string, es: seq<Entry>, d: string,
                       base: seq<Finding>, first: nat)
    requires WellFormed(w.tables) && Right(w, hash, es, d, base, first) && x < w.tables.nextTarget
    requires forall i :: 0 <= i < |found| ==> found[i].modus != "import"
    ensures Right(R.Apply(w, R.OtherScan(x, found)), hash, es, d, base, first)
  {
    var t := w.tables;
    var created := CreateScan(t, x, None);
    var u := AppendTo(created, t.nextScan, found);
    if d in t.targets {
      OtherScanAlike(t, x, found, t.targets[d]);
    }
    hide Right, Alike, WellFormed;
    AlikeRight(w, u, hash, es, d, base, first);
  }

  lemma StepRight(w: R.World, s: R.Step, hash: string, es: seq<Entry>, d: string, base: seq<Finding>, first: nat)
    requires Tidy(w, hash, es, first) && Right(w, hash, es, d, base, first) && R.Enabled(w, s) && Proper(w, s, hash, es)
    ensures Right(R.Apply(w, s), hash, es, d, base, first)
  {
    assert WellFormed(w.tables);
    hide Right, WellFormed;
    match s
    case Begin(_, _) => BeginRight(w, hash, es, d, base, first);
    case Advance(i, works) =>
      if works { AdvanceRight(w, i, hash, es, d, base, first); } else { FailRight(w, i, hash, es, d, base, first); }
    case NewTarget(e) => TargetRight(w, e, hash, es, d, base, first);
    case OtherScan(x, found) => OtherScanRight(w, x, found, hash, es, d, base, first);
  }

  lemma {:induction false} AlwaysRight(w: R.World, trace: seq<R.Step>, hash: string, es: seq<Entry>, d: string,
                                       base: seq<Finding>, first: nat)
    requires R.Interleave(w, trace).Some? && AllProper(w, trace, hash, es)
    requires Tidy(w, hash, es, first) && Right(w, hash, es, d, base, first)
    ensures Right(R.Interleave(w, trace).value, hash, es, d, base, first)
    decreases |trace|
  {
    if trace != [] {
      hide Tidy, Right;
      StepTidy(w, trace[0], hash, es, first);
      StepRight(w, trace[0], hash, es, d, base, first);
      AlwaysRight(R.Apply(w, trace[0]), trace[1..], hash, es, d, base, first);
    }
  }

  /** The import half of d before the file came. */
  function BaseOf(t: Tables, d: string): seq<Finding> {
    if d in t.targets then View(t, d) else []
  }

  lemma StartsRight(t: Tables, hash: string, es: seq<Entry>, d: string)
    requires WellFormed(t) && (hash, d) !in t.imports
    ensures Tidy(R.World(t, []), hash, es, t.nextScan) && Right(R.World(t, []), hash, es, d, BaseOf(t, d), t.nextScan)
  {
    hide Latest;
    if d in t.targets {
      forall r | r in ImportsOf(t, t.targets[d]) ensures r.scan < t.nextScan {
        assert IsImport(t, t.targets[d], r);
      }
    }
  }

  /**
   * Importers of one file in any interleaving, failures and perimeter scans included: at every time the import half of
   * a domain is what it was before the file or that with the file laid over it, and the latter once the domain is
   * recorded.
   */
  lemma ImportersConverge(t: Tables, hash: string, es: seq<Entry>, trace: seq<R.Step>, d: string)
    requires WellFormed(t) && (hash, d) !in t.imports
    requires R.Interleave(R.World(t, []), trace).Some? && AllProper(R.World(t, []), trace, hash, es)
    ensures var u := R.Interleave(R.World(t, []), trace).value.tables;
            var base, imported := BaseOf(t, d), Over(FindingsFor(es, d), BaseOf(t, d));
            && (d in u.targets ==> View(u, d) == base || View(u, d) == imported)
            && ((hash, d) in u.imports ==> d in u.targets && d in Domains(es) && View(u, d) == imported)
  {
    StartsRight(t, hash, es, d);
    hide Tidy;
    AlwaysRight(R.World(t, []), trace, hash, es, d, BaseOf(t, d), t.nextScan);
    hide Latest, Over, IsTop, ImportsOf, FindingsFor;
  }

  /** So a recorded domain shows what one clean import leaves. */
  lemma RecordedIsClean(t: Tables, hash: string, es: seq<Entry>, trace: seq<R.Step>, d: string, calls: nat)
    requires WellFormed(t) && (hash, d) !in t.imports && AllAccepted(es) && Enough(calls, Domains(es))
    requires R.Interleave(R.World(t, []), trace).Some? && AllProper(R.World(t, []), trace, hash, es)
    requires (hash, d) in R.Interleave(R.World(t, []), trace).value.tables.imports
    ensures var u := R.Interleave(R.World(t, []), trace).value.tables;
            var clean := Run(Happen(t, hash, es, AddTarget(d)), hash, es, calls).0;
            d in u.targets && d in clean.targets && View(u, d) == View(clean, d)
  {
    ImportersConverge(t, hash, es, trace, d);
    var known := Happen(t, hash, es, AddTarget(d));
    TargetKeepsViews(t, hash, es, AddTarget(d));
    assert d in known.targets && (hash, d) !in known.imports && View(known, d) == BaseOf(t, d);
    hide View, Over, FindingsFor, WellFormed, BaseOf;
    CompleteRun(known, hash, es, calls, d);
  }
}
