/** Which imported findings the assessor sees (internal/store/netnlimport.go). */
module ImportCorrelation {
  import opened Sequences
  import opened Findings

  /** origin is history: the (file hash, domain) an import scan was made for. */
  datatype Scan = Scan(target: nat, startedAt: int, status: string, origin: Option<(string, string)>)

  /** A stored finding; its position in the table is its rowid. Ids and timestamps are left off. */
  datatype Row = Row(scan: nat, finding: Finding)

  datatype Tables = Tables(
    targets: map<string, nat>, scans: map<nat, Scan>, findings: seq<Row>,
    imports: set<(string, string)>, clock: int, nextScan: nat, nextTarget: nat)

  function TypeOf(f: Finding): string {
    TextAttr(f, "type")
  }

  /** One row of the findings-scans join. */
  datatype Joined = Joined(startedAt: int, scan: nat, finding: Finding)

  predicate IsImport(t: Tables, target: nat, r: Row) {
    r.scan in t.scans && t.scans[r.scan].target == target && r.finding.modus == "import"
  }

  function Join(t: Tables, target: nat, rows: seq<Row>): (js: seq<Joined>)
    ensures forall i :: 0 <= i < |js| ==> js[i].scan in t.scans && js[i].startedAt == t.scans[js[i].scan].startedAt
  {
    if rows == [] then []
    else
      (if IsImport(t, target, rows[0])
       then [Joined(t.scans[rows[0].scan].startedAt, rows[0].scan, rows[0].finding)] else [])
      + Join(t, target, rows[1..])
  }

  predicate Newer(a: Joined, b: Joined) {
    a.startedAt > b.startedAt || (a.startedAt == b.startedAt && a.scan > b.scan)
  }

  function Place(r: Joined, sorted: seq<Joined>): seq<Joined> {
    if sorted != [] && Newer(sorted[0], r) then [sorted[0]] + Place(r, sorted[1..]) else [r] + sorted
  }

  /** ORDER BY started_at DESC, id DESC, rowid. */
  function NewestFirst(rows: seq<Joined>): seq<Joined> {
    if rows == [] then [] else Place(rows[0], NewestFirst(rows[1..]))
  }

  /** r's scan is the newest of those in rows that carry a finding of r's type. */
  predicate Wins(rows: seq<Joined>, r: Joined) {
    forall i :: 0 <= i < |rows| && TypeOf(rows[i].finding) == TypeOf(r.finding) ==> !Newer(rows[i], r)
  }

  /** The declarative reading: every finding of a winning scan, newest scan first. */
  function Winners(rows: seq<Joined>): seq<Joined> {
    Filter(NewestFirst(rows), (r: Joined) => Wins(rows, r))
  }

  function FindingsOf(rows: seq<Joined>): seq<Finding> {
    Map((r: Joined) => r.finding, rows)
  }

  function Latest(t: Tables, target: nat): seq<Finding> {
    FindingsOf(Winners(Join(t, target, t.findings)))
  }

  predicate Descending(rows: seq<Joined>) {
    forall i, j :: 0 <= i < j < |rows| ==> !Newer(rows[j], rows[i])
  }

  /** Rows of one scan carry that scan's start time. */
  predicate Consistent(rows: seq<Joined>) {
    forall i, j :: 0 <= i < |rows| && 0 <= j < |rows| && rows[i].scan == rows[j].scan ==>
      rows[i].startedAt == rows[j].startedAt
  }

  lemma {:induction false} PlaceAdds(r: Joined, s: seq<Joined>)
    ensures multiset(Place(r, s)) == multiset(s) + multiset{r}
  {
    hide Newer;
    if s != [] && Newer(s[0], r) {
      PlaceAdds(r, s[1..]);
      assert s == [s[0]] + s[1..];
    }
  }

  lemma PlacedFirst(r: Joined, s: seq<Joined>)
    requires Descending(s) && (s == [] || !Newer(s[0], r))
    ensures Descending([r] + s)
  {
  }

  lemma {:induction false} PlaceSorted(r: Joined, s: seq<Joined>)
    requires Descending(s)
    ensures Descending(Place(r, s)) && multiset(Place(r, s)) == multiset(s) + multiset{r}
  {
    PlaceAdds(r, s);
    if s != [] && Newer(s[0], r) {
      assert !Newer(r, s[0]);
      hide Newer;
      PlaceSorted(r, s[1..]);
      var p := Place(r, s[1..]);
      forall j | 0 <= j < |p| ensures !Newer(p[j], s[0]) {
        assert p[j] in multiset(p);
        assert p[j] == r || p[j] in s[1..];
      }
    } else {
      PlacedFirst(r, s);
    }
  }

  lemma {:induction false} NewestFirstSorts(rows: seq<Joined>)
    ensures Descending(NewestFirst(rows)) && multiset(NewestFirst(rows)) == multiset(rows)
  {
    if rows != [] {
      NewestFirstSorts(rows[1..]);
      PlaceSorted(rows[0], NewestFirst(rows[1..]));
      assert rows == [rows[0]] + rows[1..];
    }
  }

  /** The streaming scan: the first scan seen for a type wins, later scans of that type are skipped. */
  function Stream(rows: seq<Joined>, winner: map<string, nat>): seq<Joined> {
    if rows == [] then []
    else
      var typ := TypeOf(rows[0].finding);
      var winner' := if typ in winner then winner else winner[typ := rows[0].scan];
      (if rows[0].scan == winner'[typ] then [rows[0]] else []) + Stream(rows[1..], winner')
  }

  /** The pass has kept kept and goes on at row i. */
  lemma StreamStep(rows: seq<Joined>, i: nat, winner: map<string, nat>, kept: seq<Joined>)
    requires i < |rows|
    ensures var typ := TypeOf(rows[i].finding);
            var winner' := if typ in winner then winner else winner[typ := rows[i].scan];
            kept + Stream(rows[i..], winner) ==
            (if rows[i].scan == winner'[typ] then kept + [rows[i]] else kept) + Stream(rows[i + 1..], winner')
  {
    hide TypeOf;
    assert rows[i..][0] == rows[i] && rows[i..][1..] == rows[i + 1..];
  }

  lemma StreamEnds(rows: seq<Joined>, winner: map<string, nat>)
    ensures Stream(rows[|rows|..], winner) == []
  {
  }

  predicate Kept(rows: seq<Joined>, winner: map<string, nat>, r: Joined) {
    var typ := TypeOf(r.finding);
    if typ in winner then r.scan == winner[typ] else Wins(rows, r)
  }

  /** What the pass keeps of the rows after the first is what it keeps of them among all the rows. */
  lemma KeptOfRest(rows: seq<Joined>, winner: map<string, nat>, r: Joined)
    requires Descending(rows) && Consistent(rows) && rows != [] && r in rows[1..]
    ensures var typ := TypeOf(rows[0].finding);
            Kept(rows[1..], if typ in winner then winner else winner[typ := rows[0].scan], r) == Kept(rows, winner, r)
  {
    var head, rest, typ := rows[0], rows[1..], TypeOf(rows[0].finding);
    var j :| 0 <= j < |rest| && rest[j] == r;
    assert rows[j + 1] == r && !Newer(r, head);
    assert forall i :: 0 <= i < |rest| ==> rest[i] == rows[i + 1];
    if TypeOf(r.finding) == typ && typ !in winner {
      if r.scan == head.scan {
        assert rows[0].scan == rows[j + 1].scan;
        assert forall i :: 0 <= i < |rows| ==> !Newer(rows[i], head);
      }
    }
    if TypeOf(r.finding) != typ {
      assert Wins(rows, r) <==> Wins(rest, r);
    }
  }

  lemma {:induction false} StreamKeeps(rows: seq<Joined>, winner: map<string, nat>)
    requires Descending(rows) && Consistent(rows)
    ensures Stream(rows, winner) == Filter(rows, (r: Joined) => Kept(rows, winner, r))
  {
    if rows != [] {
      var head, rest := rows[0], rows[1..];
      var typ := TypeOf(head.finding);
      var winner' := if typ in winner then winner else winner[typ := head.scan];
      assert Kept(rows, winner, head) == (head.scan == winner'[typ]);
      hide Kept, TypeOf, Newer;
      StreamKeeps(rest, winner');
      forall r | r in rest ensures Kept(rest, winner', r) == Kept(rows, winner, r) {
        KeptOfRest(rows, winner, r);
      }
      FilterAgree(rest, (r: Joined) => Kept(rest, winner', r), (r: Joined) => Kept(rows, winner, r));
    }
  }

  lemma SameRowsSameWinners(a: seq<Joined>, b: seq<Joined>, r: Joined)
    requires multiset(a) == multiset(b)
    ensures Wins(a, r) == Wins(b, r)
  {
    assert forall i :: 0 <= i < |a| ==> a[i] in multiset(a);
    assert forall i :: 0 <= i < |b| ==> b[i] in multiset(b);
    assert forall x :: x in multiset(a) ==> x in a && x in b;
  }

  /** One pass over the newest-first rows finds exactly the winners. */
  lemma StreamIsSpec(rows: seq<Joined>)
    requires Consistent(rows)
    ensures Stream(NewestFirst(rows), map[]) == Winners(rows)
  {
    var sorted := NewestFirst(rows);
    NewestFirstSorts(rows);
    assert forall i :: 0 <= i < |sorted| ==> sorted[i] in multiset(rows);
    assert Consistent(sorted);
    StreamKeeps(sorted, map[]);
    forall r: Joined ensures Kept(sorted, map[], r) == Wins(rows, r) {
      SameRowsSameWinners(sorted, rows, r);
    }
    FilterAgree(sorted, (r: Joined) => Kept(sorted, map[], r), (r: Joined) => Wins(rows, r));
  }

  // ----- What a newer scan changes -----

  predicate HasType(fs: seq<Finding>, typ: string) {
    exists i :: 0 <= i < |fs| && TypeOf(fs[i]) == typ
  }

  predicate Uncovered(g: seq<Finding>, f: Finding) {
    !HasType(g, TypeOf(f))
  }

  /** g laid over l: g first, then what l has of the types g does not carry. */
  function Over(g: seq<Finding>, l: seq<Finding>): seq<Finding> {
    g + Filter(l, (f: Finding) => Uncovered(g, f))
  }

  lemma CoversItself(g: seq<Finding>)
    ensures forall f :: f in g ==> !Uncovered(g, f)
  {
    forall f | f in g ensures !Uncovered(g, f) {
      var i :| 0 <= i < |g| && g[i] == f;
    }
  }

  /** Importing the same findings again changes nothing. */
  lemma OverIdempotent(g: seq<Finding>, l: seq<Finding>)
    ensures Over(g, Over(g, l)) == Over(g, l)
  {
    var p := (f: Finding) => Uncovered(g, f);
    var rest := Filter(l, p);
    assert Filter(g + rest, p) == rest by {
      CoversItself(g);
      FilterConcat(g, rest, p);
      FilterNone(g, p);
      FilterAll(rest, p);
    }
    assert Over(g, l) == g + rest;
  }

  lemma {:induction false} PlaceAfter(r: Joined, front: seq<Joined>, back: seq<Joined>)
    requires forall j :: 0 <= j < |front| ==> Newer(front[j], r)
    ensures Place(r, front + back) == front + Place(r, back)
  {
    if front == [] {
      assert front + back == back;
    } else {
      assert (front + back)[1..] == front[1..] + back;
      PlaceAfter(r, front[1..], back);
    }
  }

  /** added is one scan's rows, newer than every row of before. */
  predicate IsNewestScan(before: seq<Joined>, added: seq<Joined>) {
    && (forall i, j :: 0 <= i < |before| && 0 <= j < |added| ==> Newer(added[j], before[i]))
    && (forall i, j :: 0 <= i < |added| && 0 <= j < |added| ==> !Newer(added[i], added[j]))
  }

  lemma NewestTails(before: seq<Joined>, added: seq<Joined>)
    requires IsNewestScan(before, added)
    ensures before != [] ==>
            IsNewestScan(before[1..], added) && forall j :: 0 <= j < |added| ==> Newer(added[j], before[0])
    ensures |added| > 1 ==> !Newer(added[1], added[0])
    ensures added != [] ==> IsNewestScan([], added[1..])
  {
    hide Newer;
  }

  lemma {:induction false} OneScanStays(added: seq<Joined>)
    requires IsNewestScan([], added)
    ensures NewestFirst(added) == added
  {
    if added != [] {
      NewestTails([], added);
      hide Newer, IsNewestScan;
      OneScanStays(added[1..]);
    }
  }

  lemma {:induction false} NewestGoFirst(before: seq<Joined>, added: seq<Joined>)
    requires IsNewestScan(before, added)
    ensures NewestFirst(before + added) == added + NewestFirst(before)
    decreases |before|
  {
    if before == [] {
      assert before + added == added;
      OneScanStays(added);
    } else {
      NewestTails(before, added);
      hide Newer, IsNewestScan, Place;
      assert (before + added)[1..] == before[1..] + added;
      NewestGoFirst(before[1..], added);
      PlaceAfter(before[0], added, NewestFirst(before[1..]));
    }
  }

  lemma {:induction false} FindingsOfFilter(rows: seq<Joined>, p: Finding -> bool)
    ensures FindingsOf(Filter(rows, (r: Joined) => p(r.finding))) == Filter(FindingsOf(rows), p)
  {
    if rows != [] {
      FindingsOfFilter(rows[1..], p);
      var q := (r: Joined) => p(r.finding);
      assert FindingsOf(rows)[1..] == FindingsOf(rows[1..]);
      MapConcat((r: Joined) => r.finding, if q(rows[0]) then [rows[0]] else [], Filter(rows[1..], q));
    }
  }

  lemma NewestAllWin(before: seq<Joined>, added: seq<Joined>, r: Joined)
    requires IsNewestScan(before, added) && r in added
    ensures Wins(before + added, r)
  {
    var all := before + added;
    var j :| 0 <= j < |added| && added[j] == r;
    forall i | 0 <= i < |all| ensures !Newer(all[i], r) {
      assert i < |before| ==> Newer(added[j], before[i]);
      assert i >= |before| ==> all[i] == added[i - |before|];
    }
  }

  lemma OldWinsUnlessCovered(before: seq<Joined>, added: seq<Joined>, r: Joined)
    requires IsNewestScan(before, added) && r in before
    ensures Wins(before + added, r) <==> Wins(before, r) && Uncovered(FindingsOf(added), r.finding)
  {
    var all, g := before + added, FindingsOf(added);
    var k :| 0 <= k < |before| && before[k] == r;
    assert forall i :: 0 <= i < |before| ==> all[i] == before[i];
    assert forall j :: 0 <= j < |added| ==> all[|before| + j] == added[j] && g[j] == added[j].finding;
    if !Uncovered(g, r.finding) {
      var j :| 0 <= j < |g| && TypeOf(g[j]) == TypeOf(r.finding);
      assert Newer(added[j], before[k]) && all[|before| + j] == added[j];
    }
    if Wins(before, r) && Uncovered(g, r.finding) {
      assert forall j :: 0 <= j < |added| ==> TypeOf(added[j].finding) != TypeOf(r.finding);
      assert forall i :: |before| <= i < |all| ==> all[i] == added[i - |before|];
    }
  }

  lemma WonAndUncovered(rows: seq<Joined>, won: Joined -> bool, p: Finding -> bool)
    ensures FindingsOf(Filter(rows, (r: Joined) => won(r) && p(r.finding))) == Filter(FindingsOf(Filter(rows, won)), p)
  {
    var q := (r: Joined) => p(r.finding);
    var both := (r: Joined) => won(r) && p(r.finding);
    FilterTwice(rows, won, q, both);
    FindingsOfFilter(Filter(rows, won), p);
  }

  /** A scan newer than all others puts its findings in front and replaces only its own types. */
  lemma NewestWins(before: seq<Joined>, added: seq<Joined>)
    requires IsNewestScan(before, added)
    ensures FindingsOf(Winners(before + added)) == Over(FindingsOf(added), FindingsOf(Winners(before)))
  {
    var g, sorted := FindingsOf(added), NewestFirst(before);
    var wins := (r: Joined) => Wins(before + added, r);
    var won := (r: Joined) => Wins(before, r);
    var p := (f: Finding) => Uncovered(g, f);
    var both := (r: Joined) => won(r) && p(r.finding);
    NewestGoFirst(before, added);
    FilterConcat(added, sorted, wins);
    forall r | r in added ensures wins(r) { NewestAllWin(before, added, r); }
    FilterAll(added, wins);
    NewestFirstSorts(before);
    forall r | r in sorted ensures wins(r) == both(r) {
      assert r in multiset(sorted);
      OldWinsUnlessCovered(before, added, r);
    }
    FilterAgree(sorted, wins, both);
    WonAndUncovered(sorted, won, p);
    MapConcat((r: Joined) => r.finding, added, Filter(sorted, both));
  }

  // ----- Table operations -----

  predicate WellFormed(t: Tables) {
    && (forall id :: id in t.scans ==>
        id < t.nextScan && t.scans[id].startedAt <= t.clock && t.scans[id].target < t.nextTarget)
    && (forall i :: 0 <= i < |t.findings| ==> t.findings[i].scan in t.scans)
    && (forall d, e :: d in t.targets && e in t.targets && t.targets[d] == t.targets[e] ==> d == e)
    && (forall d :: d in t.targets ==> t.targets[d] < t.nextTarget)
    && (forall p :: p in t.imports ==> p.1 in t.targets)
  }

  /** The clock moves on between two scans. */
  function CreateScan(t: Tables, target: nat, origin: Option<(string, string)>): Tables {
    t.(scans := t.scans[t.nextScan := Scan(target, t.clock + 1, "running", origin)],
       clock := t.clock + 1, nextScan := t.nextScan + 1)
  }

  function AppendTo(t: Tables, scan: nat, fs: seq<Finding>): Tables {
    t.(findings := t.findings + Map((f: Finding) => Row(scan, f), fs))
  }

  function FinishScan(t: Tables, scan: nat): Tables
    requires scan in t.scans
  {
    t.(scans := t.scans[scan := t.scans[scan].(status := "complete")])
  }

  lemma {:induction false} JoinConcat(t: Tables, target: nat, a: seq<Row>, b: seq<Row>)
    ensures Join(t, target, a + b) == Join(t, target, a) + Join(t, target, b)
  {
    if a == [] {
      assert a + b == b;
    } else {
      assert (a + b)[1..] == a[1..] + b;
      JoinConcat(t, target, a[1..], b);
    }
  }

  /** The join only looks at the target and start time of the scans the rows name. */
  lemma {:induction false} JoinAgrees(t: Tables, u: Tables, target: nat, rows: seq<Row>)
    requires forall i :: 0 <= i < |rows| ==>
               rows[i].scan in t.scans && rows[i].scan in u.scans
               && t.scans[rows[i].scan].target == u.scans[rows[i].scan].target
               && t.scans[rows[i].scan].startedAt == u.scans[rows[i].scan].startedAt
    ensures Join(t, target, rows) == Join(u, target, rows)
  {
    if rows != [] {
      assert rows[0].scan in t.scans;
      assert forall i :: 0 <= i < |rows[1..]| ==> rows[1..][i] == rows[i + 1];
      JoinAgrees(t, u, target, rows[1..]);
    }
  }

  lemma {:induction false} JoinNew(t: Tables, target: nat, scan: nat, fs: seq<Finding>)
    requires scan in t.scans && forall i :: 0 <= i < |fs| ==> fs[i].modus == "import"
    ensures var js := Join(t, target, Map((f: Finding) => Row(scan, f), fs));
            && (t.scans[scan].target != target ==> js == [])
            && (t.scans[scan].target == target ==> FindingsOf(js) == fs)
            && forall j :: 0 <= j < |js| ==> js[j].scan == scan
  {
    var rows := Map((f: Finding) => Row(scan, f), fs);
    if fs != [] {
      JoinNew(t, target, scan, fs[1..]);
      assert rows[1..] == Map((f: Finding) => Row(scan, f), fs[1..]);
    }
  }

  lemma {:induction false} JoinPerimeter(t: Tables, target: nat, rows: seq<Row>)
    requires forall i :: 0 <= i < |rows| ==> rows[i].finding.modus != "import"
    ensures Join(t, target, rows) == []
  {
    if rows != [] {
      assert rows[0].finding.modus != "import";
      JoinPerimeter(t, target, rows[1..]);
    }
  }

  /** A scan without findings shows nowhere. */
  lemma CreateIsInvisible(t: Tables, target: nat, origin: Option<(string, string)>, seen: nat)
    requires WellFormed(t) && target < t.nextTarget
    ensures var u := CreateScan(t, target, origin);
            WellFormed(u) && Latest(u, seen) == Latest(t, seen)
  {
    hide Winners, Join;
    JoinAgrees(t, CreateScan(t, target, origin), seen, t.findings);
  }

  /** Nor does a status change. */
  lemma FinishIsInvisible(t: Tables, scan: nat, seen: nat)
    requires WellFormed(t) && scan in t.scans
    ensures WellFormed(FinishScan(t, scan)) && Latest(FinishScan(t, scan), seen) == Latest(t, seen)
  {
    hide Winners, Join;
    JoinAgrees(t, FinishScan(t, scan), seen, t.findings);
  }

  /**
   * Scan a comes after scan b in the order the rows are read: started earlier, or at the same time with a smaller ID.
   */
  predicate OlderScan(t: Tables, a: nat, b: nat)
    requires a in t.scans && b in t.scans
  {
    t.scans[a].startedAt < t.scans[b].startedAt || (t.scans[a].startedAt == t.scans[b].startedAt && a < b)
  }

  /**
   * Of two scans that started at the same time the one with the greater ID wins their common types, whichever came
   * last.
   */
  lemma TieGoesToGreaterId(rows: seq<Joined>, r: Joined, o: Joined)
    requires r in rows && o in rows && TypeOf(r.finding) == TypeOf(o.finding)
    requires r.startedAt == o.startedAt && r.scan < o.scan
    ensures r !in Winners(rows)
  {
    var i :| 0 <= i < |rows| && rows[i] == o;
    assert Newer(rows[i], r);
    assert !Wins(rows, r);
  }

  lemma {:induction false} JoinOlder(t: Tables, target: nat, rows: seq<Row>, scan: nat)
    requires scan in t.scans
    requires forall i :: 0 <= i < |rows| && IsImport(t, target, rows[i]) ==> OlderScan(t, rows[i].scan, scan)
    ensures forall j :: 0 <= j < |Join(t, target, rows)| ==>
              Newer(Joined(t.scans[scan].startedAt, scan, Join(t, target, rows)[j].finding), Join(t, target, rows)[j])
  {
    if rows != [] {
      assert forall i :: 0 <= i < |rows[1..]| ==> rows[1..][i] == rows[i + 1];
      JoinOlder(t, target, rows[1..], scan);
    }
  }

  /** The import half after findings arrive in a scan newer than those its target has imports of. */
  lemma NewestImport(t: Tables, target: nat, scan: nat, fs: seq<Finding>, seen: nat)
    requires WellFormed(t) && scan in t.scans && t.scans[scan].target == target
    requires forall i :: 0 <= i < |t.findings| && IsImport(t, target, t.findings[i]) ==>
               OlderScan(t, t.findings[i].scan, scan)
    requires forall i :: 0 <= i < |fs| ==> fs[i].modus == "import"
    ensures WellFormed(AppendTo(t, scan, fs))
    ensures Latest(AppendTo(t, scan, fs), seen) ==
            if seen == target then Over(fs, Latest(t, seen)) else Latest(t, seen)
  {
    var u := AppendTo(t, scan, fs);
    var rows := Map((f: Finding) => Row(scan, f), fs);
    assert u.findings == t.findings + rows;
    JoinConcat(u, seen, t.findings, rows);
    JoinAgrees(t, u, seen, t.findings);
    JoinNew(u, seen, scan, fs);
    var before, added := Join(t, seen, t.findings), Join(u, seen, rows);
    assert Join(u, seen, u.findings) == before + added;
    if seen == target {
      JoinOlder(t, seen, t.findings, scan);
      NewestWins(before, added);
    } else {
      assert before + added == before;
    }
  }

  // ----- What an older scan changes -----

  lemma NoneNewer(r: Joined, s: seq<Joined>)
    requires Descending(s) && s != [] && !Newer(s[0], r)
    ensures forall x :: x in s ==> !Newer(x, r)
  {
    forall x | x in s ensures !Newer(x, r) {
      var i :| 0 <= i < |s| && s[i] == x;
      assert i > 0 ==> !Newer(s[i], s[0]);
    }
  }

  lemma PlaceCons(r: Joined, x: Joined, s: seq<Joined>)
    ensures Place(r, [x] + s) == if Newer(x, r) then [x] + Place(r, s) else [r] + ([x] + s)
  {
    assert ([x] + s)[1..] == s;
  }

  lemma PlaceInFront(r: Joined, s: seq<Joined>)
    requires forall x :: x in s ==> !Newer(x, r)
    ensures Place(r, s) == [r] + s
  {
    assert s != [] ==> s[0] in s;
  }

  lemma {:induction false} PlaceFiltered(r: Joined, s: seq<Joined>, p: Joined -> bool)
    requires Descending(s)
    ensures Filter(Place(r, s), p) == if p(r) then Place(r, Filter(s, p)) else Filter(s, p)
  {
    if s == [] {
      FilterCons(r, [], p);
    } else {
      var x, rest := s[0], s[1..];
      assert s == [x] + rest && Descending(rest);
      PlaceCons(r, x, rest);
      if Newer(x, r) {
        hide Place, Filter, Descending, Newer;
        PlaceFiltered(r, rest, p);
        FilterCons(x, rest, p);
        FilterCons(x, Place(r, rest), p);
        PlaceCons(r, x, Filter(rest, p));
        assert [] + Filter(rest, p) == Filter(rest, p) && [] + Place(r, Filter(rest, p)) == Place(r, Filter(rest, p));
      } else {
        NoneNewer(r, s);
        hide Place, Filter, Descending, Newer;
        FilterCons(r, s, p);
        assert [] + Filter(s, p) == Filter(s, p);
        assert forall y :: y in Filter(s, p) ==> y in s;
        PlaceInFront(r, Filter(s, p));
      }
    }
  }

  /** Rows that p drops do not matter to what is left of the order. */
  lemma {:induction false} DroppedRows(before: seq<Joined>, added: seq<Joined>, p: Joined -> bool)
    requires forall r :: r in added ==> !p(r)
    ensures Filter(NewestFirst(before + added), p) == Filter(NewestFirst(before), p)
    decreases |before|
  {
    NewestFirstSorts(added);
    if before == [] {
      assert before + added == added;
      forall r | r in NewestFirst(added) ensures !p(r) {
        assert r in multiset(NewestFirst(added));
      }
      FilterNone(NewestFirst(added), p);
    } else {
      hide Place, Descending;
      assert (before + added)[1..] == before[1..] + added;
      DroppedRows(before[1..], added, p);
      NewestFirstSorts(before[1..]);
      NewestFirstSorts(before[1..] + added);
      PlaceFiltered(before[0], NewestFirst(before[1..]), p);
      PlaceFiltered(before[0], NewestFirst(before[1..] + added), p);
    }
  }

  /** Every row of added loses to a row of before. */
  predicate AllLose(before: seq<Joined>, added: seq<Joined>) {
    forall r :: r in added ==> exists o :: o in before && TypeOf(o.finding) == TypeOf(r.finding) && Newer(o, r)
  }

  lemma LosersChangeNothing(before: seq<Joined>, added: seq<Joined>, r: Joined)
    requires AllLose(before, added)
    ensures Wins(before + added, r) <==> Wins(before, r) && r !in added
  {
    var all := before + added;
    assert forall i :: 0 <= i < |before| ==> all[i] == before[i];
    if r in added {
      var o :| o in before && TypeOf(o.finding) == TypeOf(r.finding) && Newer(o, r);
      var i :| 0 <= i < |before| && before[i] == o;
      assert Newer(all[i], r);
    } else if Wins(before, r) {
      forall i | 0 <= i < |all| && TypeOf(all[i].finding) == TypeOf(r.finding) ensures !Newer(all[i], r) {
        if i >= |before| {
          var a := all[i];
          assert a == added[i - |before|];
          var o :| o in before && TypeOf(o.finding) == TypeOf(a.finding) && Newer(o, a);
          var k :| 0 <= k < |before| && before[k] == o;
          assert !Newer(before[k], r);
        }
      }
    }
  }

  lemma LateLoses(before: seq<Joined>, added: seq<Joined>)
    requires AllLose(before, added) && forall r :: r in before ==> r !in added
    ensures Winners(before + added) == Winners(before)
  {
    var wins := (r: Joined) => Wins(before + added, r);
    var won := (r: Joined) => Wins(before, r);
    forall r | r in added ensures !wins(r) { LosersChangeNothing(before, added, r); }
    DroppedRows(before, added, wins);
    NewestFirstSorts(before);
    forall r | r in NewestFirst(before) ensures wins(r) == won(r) {
      assert r in multiset(NewestFirst(before));
      LosersChangeNothing(before, added, r);
    }
    FilterAgree(NewestFirst(before), wins, won);
  }

  lemma {:induction false} JoinHas(t: Tables, target: nat, rows: seq<Row>, r: Row)
    requires r in rows && IsImport(t, target, r)
    ensures Joined(t.scans[r.scan].startedAt, r.scan, r.finding) in Join(t, target, rows)
  {
    if rows[0] != r {
      JoinHas(t, target, rows[1..], r);
    }
  }

  lemma {:induction false} JoinComesFrom(t: Tables, target: nat, rows: seq<Row>, j: Joined)
    requires j in Join(t, target, rows)
    ensures exists r :: r in rows && IsImport(t, target, r) && r.scan == j.scan && r.finding == j.finding
  {
    if j in Join(t, target, rows[1..]) {
      JoinComesFrom(t, target, rows[1..], j);
      var r :| r in rows[1..] && IsImport(t, target, r) && r.scan == j.scan && r.finding == j.finding;
      assert r in rows;
    } else {
      assert rows[0] in rows;
    }
  }

  /** Some newer scan of the target already has an import of f's type. */
  predicate Superseded(t: Tables, target: nat, scan: nat, f: Finding)
    requires scan in t.scans
  {
    exists r :: r in t.findings && IsImport(t, target, r) && TypeOf(r.finding) == TypeOf(f)
      && OlderScan(t, scan, r.scan)
  }

  lemma LateRowsLose(t: Tables, scan: nat, fs: seq<Finding>, before: seq<Joined>, added: seq<Joined>)
    requires scan in t.scans && before == Join(t, t.scans[scan].target, t.findings) && FindingsOf(added) == fs
    requires forall j :: 0 <= j < |added| ==> added[j].scan == scan && added[j].startedAt == t.scans[scan].startedAt
    requires forall i :: 0 <= i < |fs| ==> Superseded(t, t.scans[scan].target, scan, fs[i])
    requires forall i :: 0 <= i < |t.findings| ==> t.findings[i].scan != scan
    ensures AllLose(before, added) && forall r :: r in before ==> r !in added
  {
    var target := t.scans[scan].target;
    forall a | a in added
      ensures exists o :: o in before && TypeOf(o.finding) == TypeOf(a.finding) && Newer(o, a)
    {
      var j :| 0 <= j < |added| && added[j] == a;
      assert fs[j] == a.finding;
      var r :| r in t.findings && IsImport(t, target, r) && TypeOf(r.finding) == TypeOf(fs[j])
        && OlderScan(t, scan, r.scan);
      JoinHas(t, target, t.findings, r);
      assert Newer(Joined(t.scans[r.scan].startedAt, r.scan, r.finding), a);
    }
    forall b | b in before ensures b !in added {
      JoinComesFrom(t, target, t.findings, b);
      var r :| r in t.findings && IsImport(t, target, r) && r.scan == b.scan && r.finding == b.finding;
      assert b.scan != scan;
    }
  }

  /** Findings that arrive late, each of a type that a newer scan of their target already has, show nowhere. */
  lemma LateImportIsInvisible(t: Tables, scan: nat, fs: seq<Finding>, seen: nat)
    requires WellFormed(t) && scan in t.scans
    requires forall i :: 0 <= i < |fs| ==> fs[i].modus == "import" && Superseded(t, t.scans[scan].target, scan, fs[i])
    requires forall i :: 0 <= i < |t.findings| ==> t.findings[i].scan != scan
    ensures WellFormed(AppendTo(t, scan, fs)) && Latest(AppendTo(t, scan, fs), seen) == Latest(t, seen)
  {
    var u := AppendTo(t, scan, fs);
    var rows := Map((f: Finding) => Row(scan, f), fs);
    assert u.findings == t.findings + rows;
    JoinConcat(u, seen, t.findings, rows);
    JoinAgrees(t, u, seen, t.findings);
    JoinNew(u, seen, scan, fs);
    var before, added := Join(t, seen, t.findings), Join(u, seen, rows);
    if t.scans[scan].target == seen {
      LateRowsLose(t, scan, fs, before, added);
      LateLoses(before, added);
    } else {
      assert before + added == before;
    }
  }

  /** Imports of one target show at no other, whenever they arrive. */
  lemma OtherTargetIsUntouched(t: Tables, scan: nat, fs: seq<Finding>, seen: nat)
    requires WellFormed(t) && scan in t.scans && t.scans[scan].target != seen
    requires forall i :: 0 <= i < |fs| ==> fs[i].modus == "import"
    ensures Latest(AppendTo(t, scan, fs), seen) == Latest(t, seen)
  {
    var u := AppendTo(t, scan, fs);
    var rows := Map((f: Finding) => Row(scan, f), fs);
    assert u.findings == t.findings + rows;
    JoinConcat(u, seen, t.findings, rows);
    JoinAgrees(t, u, seen, t.findings);
    JoinNew(u, seen, scan, fs);
    assert Join(t, seen, t.findings) + [] == Join(t, seen, t.findings);
  }

  /** A perimeter scan, whatever it finds, leaves every import half unchanged. */
  lemma PerimeterIsInvisible(t: Tables, scan: nat, fs: seq<Finding>, seen: nat)
    requires WellFormed(t) && scan in t.scans
    requires forall i :: 0 <= i < |fs| ==> fs[i].modus != "import"
    ensures WellFormed(AppendTo(t, scan, fs)) && Latest(AppendTo(t, scan, fs), seen) == Latest(t, seen)
  {
    var u := AppendTo(t, scan, fs);
    var rows := Map((f: Finding) => Row(scan, f), fs);
    assert u.findings == t.findings + rows;
    JoinConcat(u, seen, t.findings, rows);
    JoinAgrees(t, u, seen, t.findings);
    JoinPerimeter(u, seen, rows);
    assert Join(t, seen, t.findings) + [] == Join(t, seen, t.findings);
  }

  /** A later import carrying only mail findings keeps every web finding, in order. */
  lemma MailImportKeepsWeb(g: seq<Finding>, l: seq<Finding>)
    requires forall i :: 0 <= i < |g| ==> TypeOf(g[i]) == "mail"
    ensures Filter(Over(g, l), (f: Finding) => TypeOf(f) == "web") == Filter(l, (f: Finding) => TypeOf(f) == "web")
  {
    var web := (f: Finding) => TypeOf(f) == "web";
    var p := (f: Finding) => Uncovered(g, f);
    FilterConcat(g, Filter(l, p), web);
    FilterNone(g, web);
    FilterTwice(l, p, web, web);
  }
}
