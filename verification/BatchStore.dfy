/** The core's findings and finding_batches tables (internal/store/sqlite.go, internal/api/findings.go). */
module BatchStore {
  import opened Sequences
  import opened Findings

  /** Generated ids are fresh values; a finding may also bring its own. */
  datatype RowId = Supplied(text: string) | Generated(number: nat)

  datatype BatchRow = BatchRow(id: string, scan: string)

  /** origin is a history variable, the batch a row came from; no operation reads it. */
  datatype Row = Row(id: RowId, scan: string, finding: Finding, createdAt: int, origin: Option<string>)

  datatype Tables = Tables(batches: seq<BatchRow>, findings: seq<Row>, nextId: nat)

  datatype Outcome = Stored(received: nat) | Duplicate | Rejected

  /** What a finding looks like once stored, apart from its id and timestamp. */
  datatype Content = Content(scan: string, finding: Finding)

  function Stamp(scan: string, f: Finding): Content {
    Content(scan, f.(id := "", modus := if f.modus == "" then "perimeter" else f.modus))
  }

  function ContentOf(r: Row): Content {
    Content(r.scan, r.finding)
  }

  function StampAll(scan: string, fs: seq<Finding>): seq<Content> {
    Map((f: Finding) => Stamp(scan, f), fs)
  }

  function Contents(rows: seq<Row>): seq<Content> {
    Map((r: Row) => ContentOf(r), rows)
  }

  predicate HasBatch(t: Tables, id: string) {
    exists i :: 0 <= i < |t.batches| && t.batches[i].id == id
  }

  predicate HasRow(rows: seq<Row>, id: RowId) {
    exists i :: 0 <= i < |rows| && rows[i].id == id
  }

  function AssignId(f: Finding, next: nat): RowId {
    if f.id == "" then Generated(next) else Supplied(f.id)
  }

  function MakeRow(scan: string, f: Finding, next: nat, now: int, origin: Option<string>): Row {
    Row(AssignId(f, next), scan, Stamp(scan, f).finding, now, origin)
  }

  /** The insert loop: None when a finding is invalid or its id is already taken. */
  function Insert(rows: seq<Row>, next: nat, scan: string, fs: seq<Finding>, now: int, origin: Option<string>)
    : Option<seq<Row>>
    decreases |fs|
  {
    if fs == [] then Some(rows)
    else if !Valid(fs[0]) || HasRow(rows, AssignId(fs[0], next)) then None
    else Insert(rows + [MakeRow(scan, fs[0], next, now, origin)], next + 1, scan, fs[1..], now, origin)
  }

  /** AppendBatch as one transaction; dbFails stands for any database error, which rolls back. */
  function Append(t: Tables, scan: string, batch: string, fs: seq<Finding>, now: int, dbFails: bool)
    : (Tables, Outcome)
  {
    if batch == "" || dbFails then (t, Rejected)
    else if HasBatch(t, batch) then (t, Duplicate)
    else match Insert(t.findings, t.nextId, scan, fs, now, Some(batch))
      case None => (t, Rejected)
      case Some(rows) =>
        (Tables(t.batches + [BatchRow(batch, scan)], rows, t.nextId + |fs|), Stored(|fs|))
  }

  /** The rows that came from batch id. */
  function RowsOf(t: Tables, id: string): seq<Row> {
    Filter(t.findings, (r: Row) => r.origin == Some(id))
  }

  lemma InsertedFront(rows: seq<Row>, row: Row, all: seq<Row>, scan: string, fs: seq<Finding>)
    requires fs != [] && ContentOf(row) == Stamp(scan, fs[0])
    requires |all| == |rows| + |fs| && all[..|rows| + 1] == rows + [row]
    requires Contents(all[|rows| + 1..]) == StampAll(scan, fs[1..])
    ensures all[..|rows|] == rows && all[|rows|] == row && Contents(all[|rows|..]) == StampAll(scan, fs)
  {
    hide ContentOf, Stamp;
    assert all[..|rows|] == all[..|rows| + 1][..|rows|];
    assert all[|rows|] == all[..|rows| + 1][|rows|];
    assert all[|rows|..] == [row] + all[|rows| + 1..];
  }

  /** A successful insert appends one row per finding, in order and with nothing else changed. */
  lemma {:induction false} InsertAppends(
      rows: seq<Row>, next: nat, scan: string, fs: seq<Finding>, now: int, origin: Option<string>)
    requires Insert(rows, next, scan, fs, now, origin).Some?
    ensures var all := Insert(rows, next, scan, fs, now, origin).value;
            |all| == |rows| + |fs| && all[..|rows|] == rows
            && Contents(all[|rows|..]) == StampAll(scan, fs)
            && forall i :: |rows| <= i < |all| ==> all[i].origin == origin
    decreases |fs|
  {
    if fs != [] {
      var row := MakeRow(scan, fs[0], next, now, origin);
      InsertAppends(rows + [row], next + 1, scan, fs[1..], now, origin);
      InsertedFront(rows, row, Insert(rows, next, scan, fs, now, origin).value, scan, fs);
    }
  }

  /** What one AppendBatch does to the rows of any batch: all of this one's findings, or nothing. */
  lemma AppendRows(t: Tables, scan: string, batch: string, fs: seq<Finding>, now: int, dbFails: bool, id: string)
    ensures var (t', o) := Append(t, scan, batch, fs, now, dbFails);
            && (o.Stored? ==> !HasBatch(t, batch) && t'.batches == t.batches + [BatchRow(batch, scan)])
            && (o.Stored? ==> o.received == |fs|)
            && (!o.Stored? ==> t' == t)
            && (o.Duplicate? ==> HasBatch(t, batch))
            && Contents(RowsOf(t', id)) ==
               Contents(RowsOf(t, id)) + (if o.Stored? && id == batch then StampAll(scan, fs) else [])
  {
    hide Insert, StampAll, HasBatch, ContentOf;
    var (t', o) := Append(t, scan, batch, fs, now, dbFails);
    if o.Stored? {
      InsertAppends(t.findings, t.nextId, scan, fs, now, Some(batch));
      var added := t'.findings[|t.findings|..];
      var p := (r: Row) => r.origin == Some(id);
      assert t'.findings == t.findings + added;
      FilterConcat(t.findings, added, p);
      if id == batch {
        FilterAll(added, p);
      } else {
        FilterNone(added, p);
      }
      MapConcat((r: Row) => ContentOf(r), RowsOf(t, id), Filter(added, p));
    }
  }

  // ----- What is stored, field by field -----

  /** r stores f for scan: every field of f, its own ID if it has one, and untagged if it names no modus. */
  predicate Stores(r: Row, scan: string, f: Finding, untagged: string, now: int) {
    && r.scan == scan && r.createdAt == now
    && r.finding.probe == f.probe && r.finding.dimension == f.dimension && r.finding.criterium == f.criterium
    && r.finding.subject == f.subject && r.finding.severity == f.severity
    && r.finding.attrs == f.attrs && r.finding.evidence == f.evidence
    && r.finding.modus == (if f.modus == "" then untagged else f.modus)
    && (if f.id == "" then r.id.Generated? else r.id == Supplied(f.id))
  }

  /** rows is before followed by one row per finding of fs, in order. */
  predicate StoresAll(before: seq<Row>, rows: seq<Row>, scan: string, fs: seq<Finding>, untagged: string, now: int) {
    && |rows| == |before| + |fs| && rows[..|before|] == before
    && forall i :: 0 <= i < |fs| ==> Stores(rows[|before| + i], scan, fs[i], untagged, now)
  }

  lemma StoresCons(before: seq<Row>, row: Row, rows: seq<Row>, scan: string, fs: seq<Finding>, now: int)
    requires fs != [] && Stores(row, scan, fs[0], "perimeter", now)
    requires StoresAll(before + [row], rows, scan, fs[1..], "perimeter", now)
    ensures StoresAll(before, rows, scan, fs, "perimeter", now)
  {
    hide Stores;
    var n := |before|;
    assert rows[..n] == rows[..n + 1][..n] == before && rows[n] == rows[..n + 1][n] == row;
    forall i | 0 <= i < |fs| ensures Stores(rows[n + i], scan, fs[i], "perimeter", now) {
      if i > 0 {
        assert Stores(rows[|before + [row]| + (i - 1)], scan, fs[1..][i - 1], "perimeter", now);
      }
    }
  }

  lemma {:induction false} InsertStores(
      rows: seq<Row>, next: nat, scan: string, fs: seq<Finding>, now: int, origin: Option<string>)
    requires Insert(rows, next, scan, fs, now, origin).Some?
    ensures StoresAll(rows, Insert(rows, next, scan, fs, now, origin).value, scan, fs, "perimeter", now)
    decreases |fs|
  {
    if fs != [] {
      var row := MakeRow(scan, fs[0], next, now, origin);
      assert Stores(row, scan, fs[0], "perimeter", now);
      hide Stores, MakeRow, StoresAll, Valid, HasRow;
      InsertStores(rows + [row], next + 1, scan, fs[1..], now, origin);
      StoresCons(rows, row, Insert(rows, next, scan, fs, now, origin).value, scan, fs, now);
    }
  }

  /** Generated IDs are below the counter. */
  predicate FreshIds(rows: seq<Row>, next: nat) {
    forall r :: r in rows && r.id.Generated? ==> r.id.number < next
  }

  predicate OwnId(f: Finding) {
    f.id != ""
  }

  /** Every finding is valid, and the IDs they bring are new and differ. */
  predicate Storable(rows: seq<Row>, fs: seq<Finding>) {
    && (forall f :: f in fs ==> Valid(f))
    && (forall f :: f in fs && OwnId(f) ==> !HasRow(rows, Supplied(f.id)))
    && (forall i, j :: 0 <= i < j < |fs| && OwnId(fs[i]) ==> fs[i].id != fs[j].id)
  }

  lemma RowNext(rows: seq<Row>, row: Row, id: RowId)
    ensures HasRow(rows + [row], id) <==> HasRow(rows, id) || row.id == id
  {
    if HasRow(rows, id) {
      var i :| 0 <= i < |rows| && rows[i].id == id;
      assert (rows + [row])[i].id == id;
    }
    assert (rows + [row])[|rows|] == row;
  }

  lemma StorableRest(rows: seq<Row>, row: Row, fs: seq<Finding>)
    requires fs != [] && (if OwnId(fs[0]) then row.id == Supplied(fs[0].id) else row.id.Generated?)
    requires Storable(rows, fs)
    ensures Storable(rows + [row], fs[1..])
  {
    hide Valid, HasRow;
    forall f | f in fs[1..] && OwnId(f) ensures !HasRow(rows + [row], Supplied(f.id)) {
      var j :| 0 <= j < |fs[1..]| && fs[1..][j] == f;
      assert fs[j + 1] == f;
      RowNext(rows, row, Supplied(f.id));
    }
  }

  lemma StorableCons(rows: seq<Row>, row: Row, fs: seq<Finding>)
    requires fs != [] && (if OwnId(fs[0]) then row.id == Supplied(fs[0].id) else row.id.Generated?)
    requires Valid(fs[0]) && (OwnId(fs[0]) ==> !HasRow(rows, Supplied(fs[0].id))) && Storable(rows + [row], fs[1..])
    ensures Storable(rows, fs)
  {
    hide Valid, HasRow;
    assert fs == [fs[0]] + fs[1..];
    forall f | f in fs[1..] ensures OwnId(f) ==> f.id != fs[0].id && !HasRow(rows, Supplied(f.id)) {
      RowNext(rows, row, Supplied(f.id));
    }
    forall i, j | 0 <= i < j < |fs| && OwnId(fs[i]) ensures fs[i].id != fs[j].id {
      assert fs[j] == fs[1..][j - 1];
      assert i > 0 ==> fs[i] == fs[1..][i - 1];
    }
  }

  /** The insert loop succeeds exactly on findings that can be stored. */
  lemma {:induction false} InsertSucceeds(
      rows: seq<Row>, next: nat, scan: string, fs: seq<Finding>, now: int, origin: Option<string>)
    requires FreshIds(rows, next)
    ensures Insert(rows, next, scan, fs, now, origin).Some? <==> Storable(rows, fs)
    decreases |fs|
  {
    if fs != [] {
      var row := MakeRow(scan, fs[0], next, now, origin);
      assert forall i :: 0 <= i < |rows| ==> rows[i] in rows;
      assert !HasRow(rows, Generated(next));
      assert FreshIds(rows + [row], next + 1);
      InsertSucceeds(rows + [row], next + 1, scan, fs[1..], now, origin);
      assert Storable(rows, fs) ==> Valid(fs[0]) && (OwnId(fs[0]) ==> !HasRow(rows, Supplied(fs[0].id)));
      hide Storable, HasRow, Valid, FreshIds;
      if Storable(rows, fs) {
        StorableRest(rows, row, fs);
      } else if Valid(fs[0]) && !HasRow(rows, row.id) && Storable(rows + [row], fs[1..]) {
        StorableCons(rows, row, fs);
      }
    }
  }

  lemma {:induction false} InsertStaysFresh(
      rows: seq<Row>, next: nat, scan: string, fs: seq<Finding>, now: int, origin: Option<string>)
    requires FreshIds(rows, next) && Insert(rows, next, scan, fs, now, origin).Some?
    ensures FreshIds(Insert(rows, next, scan, fs, now, origin).value, next + |fs|)
    decreases |fs|
  {
    if fs != [] {
      var row := MakeRow(scan, fs[0], next, now, origin);
      assert FreshIds(rows + [row], next + 1);
      InsertStaysFresh(rows + [row], next + 1, scan, fs[1..], now, origin);
    }
  }

  /**
   * What an append does: it stores exactly the new batches whose findings can be stored, every finding with all its
   * fields, reports exactly the known ones as duplicates, and otherwise changes nothing.
   */
  lemma AppendStores(t: Tables, scan: string, batch: string, fs: seq<Finding>, now: int, dbFails: bool)
    requires FreshIds(t.findings, t.nextId)
    ensures var (u, o) := Append(t, scan, batch, fs, now, dbFails);
            && (o.Stored? <==> batch != "" && !dbFails && !HasBatch(t, batch) && Storable(t.findings, fs))
            && (o.Duplicate? <==> batch != "" && !dbFails && HasBatch(t, batch))
            && (o.Stored? ==> o.received == |fs| && u.batches == t.batches + [BatchRow(batch, scan)])
            && (o.Stored? ==> StoresAll(t.findings, u.findings, scan, fs, "perimeter", now))
            && (!o.Stored? ==> u == t)
            && FreshIds(u.findings, u.nextId)
  {
    hide Insert, HasBatch, Storable, StoresAll, FreshIds;
    InsertSucceeds(t.findings, t.nextId, scan, fs, now, Some(batch));
    if Insert(t.findings, t.nextId, scan, fs, now, Some(batch)).Some? {
      InsertStores(t.findings, t.nextId, scan, fs, now, Some(batch));
      InsertStaysFresh(t.findings, t.nextId, scan, fs, now, Some(batch));
    }
  }

  /** The handler tags untagged findings as inventory before storing them. */
  function TagInventory(fs: seq<Finding>): seq<Finding> {
    Map((f: Finding) => if f.modus == "" then f.(modus := "inventory") else f, fs)
  }

  /** A signed POST of one batch: the new tables and whether the answer is a 2xx. */
  function Ingest(t: Tables, scan: string, batch: string, fs: seq<Finding>, now: int, dbFails: bool): (Tables, bool) {
    var (t', o) := Append(t, scan, batch, TagInventory(fs), now, dbFails);
    (t', o != Rejected)
  }

  lemma AlikeAreStorable(rows: seq<Row>, fs: seq<Finding>, gs: seq<Finding>)
    requires |gs| == |fs| && forall i :: 0 <= i < |fs| ==> gs[i].id == fs[i].id && Valid(gs[i]) == Valid(fs[i])
    requires Storable(rows, fs)
    ensures Storable(rows, gs)
  {
    hide HasRow, Valid;
    forall g | g in gs ensures Valid(g) && (OwnId(g) ==> !HasRow(rows, Supplied(g.id))) {
      var i :| 0 <= i < |gs| && gs[i] == g;
      assert fs[i] in fs;
    }
  }

  lemma TaggedAreStorable(rows: seq<Row>, fs: seq<Finding>)
    ensures Storable(rows, TagInventory(fs)) <==> Storable(rows, fs)
  {
    var gs := TagInventory(fs);
    assert forall i :: 0 <= i < |fs| ==> gs[i].id == fs[i].id && Valid(gs[i]) == Valid(fs[i]);
    hide TagInventory, Valid, HasRow, Storable;
    if Storable(rows, gs) {
      AlikeAreStorable(rows, gs, fs);
    }
    if Storable(rows, fs) {
      AlikeAreStorable(rows, fs, gs);
    }
  }

  lemma TaggedAreStored(before: seq<Row>, rows: seq<Row>, scan: string, fs: seq<Finding>, now: int)
    requires StoresAll(before, rows, scan, TagInventory(fs), "perimeter", now)
    ensures StoresAll(before, rows, scan, fs, "inventory", now)
  {
    forall i | 0 <= i < |fs| ensures Stores(rows[|before| + i], scan, fs[i], "inventory", now) {
      assert Stores(rows[|before| + i], scan, TagInventory(fs)[i], "perimeter", now);
    }
  }

  /** The same of the ingest handler, whose untagged findings become inventory and which accepts duplicates. */
  lemma IngestStores(t: Tables, scan: string, batch: string, fs: seq<Finding>, now: int, dbFails: bool)
    requires FreshIds(t.findings, t.nextId)
    ensures var (u, accepted) := Ingest(t, scan, batch, fs, now, dbFails);
            && (accepted <==> batch != "" && !dbFails && (HasBatch(t, batch) || Storable(t.findings, fs)))
            && (accepted && !HasBatch(t, batch) ==> StoresAll(t.findings, u.findings, scan, fs, "inventory", now))
            && (accepted && !HasBatch(t, batch) ==> u.batches == t.batches + [BatchRow(batch, scan)])
            && (!accepted || HasBatch(t, batch) ==> u == t)
            && FreshIds(u.findings, u.nextId)
  {
    AppendStores(t, scan, batch, TagInventory(fs), now, dbFails);
    TaggedAreStorable(t.findings, fs);
    hide Append, HasBatch, Storable, StoresAll, FreshIds, TagInventory;
    var (u, accepted) := Ingest(t, scan, batch, fs, now, dbFails);
    if accepted && !HasBatch(t, batch) {
      TaggedAreStored(t.findings, u.findings, scan, fs, now);
    }
  }

  /** The SQLite-backed store. */
  class Store {
    var batches: seq<BatchRow>
    var findings: seq<Row>
    var nextId: nat

    constructor ()
      ensures State() == Tables([], [], 0)
    {
      batches, findings, nextId := [], [], 0;
    }

    function State(): Tables
      reads this
    {
      Tables(batches, findings, nextId)
    }

    method InsertFindings(scan: string, fs: seq<Finding>, now: int, origin: Option<string>)
      returns (rows: seq<Row>, ok: bool)
      ensures ok == Insert(findings, nextId, scan, fs, now, origin).Some?
      ensures ok ==> rows == Insert(findings, nextId, scan, fs, now, origin).value
    {
      hide Valid, HasRow, AssignId, MakeRow;
      rows, ok := findings, true;
      var next := nextId;
      for i := 0 to |fs|
        invariant next == nextId + i
        invariant Insert(findings, nextId, scan, fs, now, origin) == Insert(rows, next, scan, fs[i..], now, origin)
      {
        if !Valid(fs[i]) || HasRow(rows, AssignId(fs[i], next)) {
          return rows, false;
        }
        assert fs[i..][1..] == fs[i + 1..];
        rows := rows + [MakeRow(scan, fs[i], next, now, origin)];
        next := next + 1;
      }
    }

    /** One transaction: the batch row and every finding, or nothing. */
    method AppendBatch(scan: string, batch: string, fs: seq<Finding>, now: int, dbFails: bool) returns (o: Outcome)
      modifies this
      ensures (State(), o) == Append(old(State()), scan, batch, fs, now, dbFails)
      ensures o.Stored? ==> StoresAll(old(findings), findings, scan, fs, "perimeter", now)
      ensures !o.Stored? ==> findings == old(findings) && batches == old(batches)
    {
      if batch == "" || dbFails {
        return Rejected;
      }
      if exists i :: 0 <= i < |batches| && batches[i].id == batch {
        return Duplicate;
      }
      var rows, ok := InsertFindings(scan, fs, now, Some(batch));
      if !ok {
        return Rejected;
      }
      InsertStores(findings, nextId, scan, fs, now, Some(batch));
      batches := batches + [BatchRow(batch, scan)];
      findings, nextId := rows, nextId + |fs|;
      return Stored(|fs|);
    }

    method IngestBatch(scan: string, batch: string, fs: seq<Finding>, now: int, dbFails: bool) returns (accepted: bool)
      modifies this
      ensures (State(), accepted) == Ingest(old(State()), scan, batch, fs, now, dbFails)
      ensures accepted && !HasBatch(old(State()), batch) ==>
                StoresAll(old(findings), findings, scan, fs, "inventory", now)
    {
      var tagged: seq<Finding> := [];
      for i := 0 to |fs|
        invariant tagged == TagInventory(fs)[..i]
      {
        tagged := tagged + [if fs[i].modus == "" then fs[i].(modus := "inventory") else fs[i]];
      }
      assert tagged == TagInventory(fs);
      var o := AppendBatch(scan, batch, tagged, now, dbFails);
      if o.Stored? {
        TaggedAreStored(old(findings), findings, scan, fs, now);
      }
      accepted := o != Rejected;
    }
  }
}
