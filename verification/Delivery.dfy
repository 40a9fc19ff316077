/**
 * Batch delivery as a state machine: one agent with its disk, the network, the core, and
 * atomic steps between which the agent may crash (cmd/wanderer/agent.go, internal/agent/outbox.go,
 * internal/store/sqlite.go).
 */
module Delivery {
  import opened Sequences
  import opened Findings
  import opened Strings
  import opened BatchStore
  import opened Wire
  import opened Outbox

  /** Where the agent process is. */
  datatype Agent =
    | Down
    | Idle
    | Draining(todo: seq<string>)
    | Acked(todo: seq<string>)
    | DrainDone
    | Sending(batch: string, left: nat)
    | Unsent(batch: string)
    | Writing(batch: string, name: string)
    | Written(batch: string, name: string)
    | Pruning(todo: seq<string>, total: int)

  /**
   * minted, foreign, lost and pruned are history: every batch ever minted, those minted by
   * other agents, those whose tick crashed or whose spool write failed, those Prune removed.
   */
  datatype World = World(
    disk: Disk, wire: Wire, agent: Agent,
    minted: map<string, Parcel>, foreign: set<string>, lost: set<string>, pruned: set<string>, limit: nat)

  datatype Step =
    | Start                        // a tick begins by listing the outbox
    | SkipCorrupt(moved: bool)     // the next file does not decode and is set aside, or cannot be
    | Transmit                     // a POST leaves the agent
    | Arrival(d: Delivery)         // some request reaches the core
    | OtherWrite(rows: seq<Row>)   // a scan stores findings of its own
    | OtherAgent(p: Parcel)        // another agent mints and posts a batch
    | DrainAnswered                // the drain's POST is answered with a 2xx
    | RemoveSent                   // and the file is removed
    | DrainStops                   // read, send or remove error, or end of the listing
    | Mint(p: Parcel)
    | NoBatch                      // marshalling or minting the id failed
    | AttemptFails
    | SendAnswered
    | GiveUp                       // attempts used up, or the context expired
    | BeginWrite(name: string, bytes: nat)  // the temporary file exists, incomplete
    | EndWrite(size: nat)
    | Rename(prune: PruneIo)
    | SpoolFails(cleaned: bool)    // after a failed rename the temporary file is removed, if that works
    | PruneOldest
    | PruneSkip                    // the size of the next file cannot be read
    | PruneStops
    | Crash
    | Restart

  function Init(limit: nat): World {
    World(map[], Wire(Tables([], [], 0), {}, {}), Idle, map[], {}, {}, {}, limit)
  }

  function InHand(a: Agent): set<string> {
    if a.Sending? || a.Unsent? || a.Writing? || a.Written? then {a.batch} else {}
  }

  function Todo(a: Agent): seq<string> {
    if a.Draining? || a.Acked? || a.Pruning? then a.todo else []
  }

  /** What the agent is about to POST, if anything. */
  function Outgoing(w: World): Option<Parcel> {
    if w.agent.Draining? && w.agent.todo != [] && w.agent.todo[0] in w.disk then w.disk[w.agent.todo[0]].content
    else if w.agent.Sending? && w.agent.left > 0 && w.agent.batch in w.minted then Some(w.minted[w.agent.batch])
    else None
  }

  ghost predicate Enabled(w: World, s: Step) {
    match s
    case Start => w.agent.Idle?
    case SkipCorrupt(_) =>
      w.agent.Draining? && w.agent.todo != [] && w.agent.todo[0] in w.disk && w.disk[w.agent.todo[0]].content.None?
    case Transmit => Outgoing(w).Some?
    case Arrival(d) => d.parcel in w.wire.sent
    case OtherWrite(rows) => forall i :: 0 <= i < |rows| ==> rows[i].origin.None?
    case OtherAgent(p) => p.batch != "" && p.batch !in w.minted
    case DrainAnswered => w.agent.Draining? && Outgoing(w).Some? && Outgoing(w).value.batch in w.wire.acked
    case RemoveSent => w.agent.Acked? && w.agent.todo != []
    case DrainStops => w.agent.Draining? || w.agent.Acked?
    case Mint(p) => w.agent.DrainDone? && p.batch != "" && p.batch !in w.minted
    case NoBatch => w.agent.DrainDone?
    case AttemptFails => w.agent.Sending? && w.agent.left > 0
    case SendAnswered => w.agent.Sending? && w.agent.batch in w.wire.acked
    case GiveUp => w.agent.Sending?
    case BeginWrite(name, _) => w.agent.Unsent? && IsBatchFile(name) && name !in w.disk
    case EndWrite(_) => w.agent.Writing? && w.agent.batch in w.minted
    case Rename(_) => w.agent.Written? && TmpName(w.agent.name) in w.disk
    case SpoolFails(_) => w.agent.Unsent? || w.agent.Writing? || w.agent.Written?
    case PruneOldest =>
      w.agent.Pruning? && w.agent.todo != [] && w.agent.total > w.limit && w.agent.todo[0] in w.disk
    case PruneSkip => w.agent.Pruning? && w.agent.todo != []
    case PruneStops => w.agent.Pruning?
    case Crash => !w.agent.Down?
    case Restart => w.agent.Down?
  }

  ghost function Apply(w: World, s: Step): World
    requires Enabled(w, s)
  {
    match s
    case Start => w.(agent := Draining(Listing(w.disk)))
    case SkipCorrupt(moved) =>
      w.(disk := if moved then SetAside(w.disk, w.agent.todo[0]) else w.disk, agent := Draining(w.agent.todo[1..]))
    case Transmit => w.(wire := w.wire.(sent := w.wire.sent + {Outgoing(w).value}))
    case Arrival(d) => w.(wire := Arrive(w.wire, d))
    case OtherWrite(rows) => w.(wire := w.wire.(core := w.wire.core.(findings := w.wire.core.findings + rows)))
    case OtherAgent(p) => w.(minted := w.minted[p.batch := p], foreign := w.foreign + {p.batch},
                             wire := w.wire.(sent := w.wire.sent + {p}))
    case DrainAnswered => w.(agent := Acked(w.agent.todo))
    case RemoveSent => w.(disk := w.disk - {w.agent.todo[0]}, agent := Draining(w.agent.todo[1..]))
    case DrainStops => w.(agent := DrainDone)
    case Mint(p) => w.(minted := w.minted[p.batch := p], agent := Sending(p.batch, 3))
    case NoBatch => w.(agent := Idle)
    case AttemptFails => w.(agent := Sending(w.agent.batch, w.agent.left - 1))
    case SendAnswered => w.(agent := Idle)
    case GiveUp => w.(agent := Unsent(w.agent.batch))
    case BeginWrite(name, bytes) =>
      w.(disk := w.disk[TmpName(name) := File(None, bytes)], agent := Writing(w.agent.batch, name))
    case EndWrite(size) =>
      w.(disk := w.disk[TmpName(w.agent.name) := File(Some(w.minted[w.agent.batch]), size)],
         agent := Written(w.agent.batch, w.agent.name))
    case Rename(prune) =>
      var tmp := TmpName(w.agent.name);
      var disk := (w.disk - {tmp})[w.agent.name := w.disk[tmp]];
      w.(disk := disk, agent := Pruning(Listing(disk), Counted(disk, Listing(disk), prune)))
    case SpoolFails(cleaned) =>
      w.(disk := if cleaned && w.agent.Written? then w.disk - {TmpName(w.agent.name)} else w.disk,
         agent := Idle, lost := w.lost + InHand(w.agent))
    case PruneOldest =>
      var f := w.disk[w.agent.todo[0]];
      w.(disk := w.disk - {w.agent.todo[0]}, agent := Pruning(w.agent.todo[1..], w.agent.total - f.size),
         pruned := w.pruned + if f.content.Some? then {f.content.value.batch} else {})
    case PruneSkip => w.(agent := Pruning(w.agent.todo[1..], w.agent.total))
    case PruneStops => w.(agent := Idle)
    case Crash => w.(agent := Down, lost := w.lost + InHand(w.agent))
    case Restart => w.(agent := Idle)
  }

  /** The world after the steps of trace, or None when one of them is not enabled. */
  ghost function Run(w: World, trace: seq<Step>): Option<World>
    decreases |trace|
  {
    if trace == [] then Some(w)
    else if !Enabled(w, trace[0]) then None
    else Run(Apply(w, trace[0]), trace[1..])
  }

  // ----- What every step keeps -----

  /** What the core should hold for batch id: every finding, stamped, or nothing. */
  ghost function Expected(w: World, id: string): seq<Content> {
    if HasBatch(w.wire.core, id) && id in w.minted
    then StampAll(w.minted[id].scan, TagInventory(w.minted[id].findings)) else []
  }

  /** Each batch id has at most one row, and its findings are stored as a whole or not at all. */
  ghost predicate StoredOnce(w: World) {
    && (forall i, j :: 0 <= i < j < |w.wire.core.batches| ==> w.wire.core.batches[i].id != w.wire.core.batches[j].id)
    && (forall id :: HasBatch(w.wire.core, id) ==> id in w.minted)
    && (forall id {:trigger RowsOf(w.wire.core, id)} :: Contents(RowsOf(w.wire.core, id)) == Expected(w, id))
  }

  /** p is the batch that was minted under its id. */
  predicate Genuine(w: World, p: Parcel) {
    p.batch != "" && p.batch in w.minted && w.minted[p.batch] == p
  }

  ghost predicate WireInv(w: World) {
    && (forall p :: p in w.wire.sent ==> Genuine(w, p))
    && (forall id :: id in w.wire.acked ==> HasBatch(w.wire.core, id))
    && (forall id :: id in w.minted ==> Genuine(w, w.minted[id]) && w.minted[id].batch == id)
  }

  /** Every listed file holds a whole, genuine batch. */
  ghost predicate DiskInv(w: World) {
    forall n :: n in w.disk && IsBatchFile(n) ==> w.disk[n].content.Some? && Genuine(w, w.disk[n].content.value)
  }

  ghost predicate AgentInv(w: World) {
    && Distinct(Todo(w.agent))
    && (forall n :: n in Todo(w.agent) ==> n in w.disk && IsBatchFile(n))
    && (w.agent.Acked? ==> (
          && w.agent.todo != [] && w.agent.todo[0] in w.disk && w.disk[w.agent.todo[0]].content.Some?
          && HasBatch(w.wire.core, w.disk[w.agent.todo[0]].content.value.batch)))
    && InHand(w.agent) <= w.minted.Keys
    && (w.agent.Writing? || w.agent.Written? ==> IsBatchFile(w.agent.name) && w.agent.name !in w.disk)
    && (w.agent.Written? ==> (
          && TmpName(w.agent.name) in w.disk
          && w.disk[TmpName(w.agent.name)].content == Some(w.minted[w.agent.batch])))
  }

  /** Batch id is in an outbox file the next drain will list. */
  ghost predicate Waits(w: World, id: string) {
    exists n :: n in w.disk && IsBatchFile(n) && w.disk[n].content.Some? && w.disk[n].content.value.batch == id
  }

  ghost predicate Accounted(w: World, id: string) {
    || id in w.foreign || id in w.lost || id in w.pruned
    || HasBatch(w.wire.core, id) || Waits(w, id) || id in InHand(w.agent)
  }

  ghost predicate AllAccounted(w: World) {
    forall id :: id in w.minted ==> Accounted(w, id)
  }

  ghost predicate Inv(w: World) {
    StoredOnce(w) && WireInv(w) && DiskInv(w) && AgentInv(w) && AllAccounted(w)
  }

  lemma InitInv(limit: nat)
    ensures Inv(Init(limit))
  {
  }

  lemma HasBatchAfter(t: Tables, scan: string, batch: string, fs: seq<Finding>, now: int, dbFails: bool)
    ensures var (t', o) := Append(t, scan, batch, fs, now, dbFails);
            forall id :: HasBatch(t', id) <==> HasBatch(t, id) || (o.Stored? && id == batch)
  {
    var (t', o) := Append(t, scan, batch, fs, now, dbFails);
    if o.Stored? {
      assert t'.batches[|t.batches|].id == batch;
      assert forall i :: 0 <= i < |t.batches| ==> t'.batches[i] == t.batches[i];
    }
  }

  lemma ArriveKeeps(w: World, d: Delivery)
    requires Inv(w) && d.parcel in w.wire.sent
    ensures Inv(w.(wire := Arrive(w.wire, d)))
  {
    hide IsBatchFile, Append, TagInventory, StampAll, Contents, RowsOf;
    var p := d.parcel;
    var w' := w.(wire := Arrive(w.wire, d));
    var (core, o) := Append(w.wire.core, p.scan, p.batch, TagInventory(p.findings), d.now, d.dbFails);
    assert w'.wire.core == core;
    AppendRows(w.wire.core, p.scan, p.batch, TagInventory(p.findings), d.now, d.dbFails, p.batch);
    HasBatchAfter(w.wire.core, p.scan, p.batch, TagInventory(p.findings), d.now, d.dbFails);
    assert Genuine(w, p);
    forall id {:trigger RowsOf(core, id)}
      ensures Contents(RowsOf(core, id)) == Expected(w', id)
    {
      AppendRows(w.wire.core, p.scan, p.batch, TagInventory(p.findings), d.now, d.dbFails, id);
      assert Contents(RowsOf(w.wire.core, id)) == Expected(w, id);
    }
    forall id | id in w'.minted ensures Accounted(w', id) {
      assert Accounted(w, id);
      assert Waits(w, id) ==> Waits(w', id);
    }
  }

  lemma OtherWriteKeeps(w: World, rows: seq<Row>)
    requires Inv(w) && Enabled(w, OtherWrite(rows))
    ensures Inv(Apply(w, OtherWrite(rows)))
  {
    var w' := Apply(w, OtherWrite(rows));
    var t, t' := w.wire.core, w'.wire.core;
    forall id ensures HasBatch(t', id) == HasBatch(t, id) && RowsOf(t', id) == RowsOf(t, id) {
      var p := (r: Row) => r.origin == Some(id);
      FilterConcat(t.findings, rows, p);
      FilterNone(rows, p);
    }
    forall id | id in w'.minted ensures Accounted(w', id) {
      assert Accounted(w, id);
      assert Waits(w, id) ==> Waits(w', id);
    }
  }

  /** Every other step leaves the core alone. */
  predicate IsLocal(s: Step) {
    !s.Arrival? && !s.OtherWrite?
  }

  lemma LocalKeepsStored(w: World, s: Step)
    requires StoredOnce(w) && Enabled(w, s) && IsLocal(s)
    ensures StoredOnce(Apply(w, s))
  {
    hide IsBatchFile, TmpName, Listing, Counted, HasBatch, SetAside, RowsOf, Contents, StampAll, TagInventory;
    var w' := Apply(w, s);
    assert w'.wire.core == w.wire.core;
    assert forall id :: HasBatch(w.wire.core, id) ==> id in w'.minted && w'.minted[id] == w.minted[id];
    forall id {:trigger RowsOf(w'.wire.core, id)}
      ensures Contents(RowsOf(w'.wire.core, id)) == Expected(w', id)
    {
      assert RowsOf(w'.wire.core, id) == RowsOf(w.wire.core, id);
    }
  }

  lemma OutgoingIsGenuine(w: World)
    requires WireInv(w) && DiskInv(w) && AgentInv(w) && Outgoing(w).Some?
    ensures Genuine(w, Outgoing(w).value)
  {
    hide IsBatchFile, HasBatch, TmpName;
    if w.agent.Draining? { assert w.agent.todo[0] in Todo(w.agent); }
  }

  /** What a local step does to the wire and the minted batches. */
  lemma LocalWire(w: World, s: Step)
    requires Enabled(w, s) && IsLocal(s)
    ensures var w' := Apply(w, s);
            && w'.wire.core == w.wire.core && w'.wire.acked == w.wire.acked
            && w'.wire.sent == w.wire.sent +
               (if s.OtherAgent? then {s.p} else if s.Transmit? then {Outgoing(w).value} else {})
            && (if s.Mint? || s.OtherAgent?
                then s.p.batch != "" && s.p.batch !in w.minted && w'.minted == w.minted[s.p.batch := s.p]
                else w'.minted == w.minted)
  {
    hide IsBatchFile, TmpName, Listing, Counted, HasBatch, SetAside, Outgoing;
  }

  lemma LocalKeepsWire(w: World, s: Step)
    requires WireInv(w) && DiskInv(w) && AgentInv(w) && Enabled(w, s) && IsLocal(s)
    ensures WireInv(Apply(w, s))
  {
    LocalWire(w, s);
    if s.Transmit? {
      assert Outgoing(w).Some?;
      OutgoingIsGenuine(w);
    }
    hide Enabled, Apply, Outgoing, HasBatch, DiskInv, AgentInv;
  }

  /** A drain never meets a file that does not decode. */
  lemma NeverCorrupt(w: World)
    requires DiskInv(w) && AgentInv(w)
    ensures forall moved :: !Enabled(w, SkipCorrupt(moved))
  {
    if w.agent.Draining? && w.agent.todo != [] {
      assert w.agent.todo[0] in Todo(w.agent);
    }
  }

  predicate TouchesDisk(s: Step) {
    s.SkipCorrupt? || s.RemoveSent? || s.BeginWrite? || s.EndWrite? || s.Rename? || s.SpoolFails? || s.PruneOldest?
  }

  lemma NotListed(name: string)
    ensures !IsBatchFile(TmpName(name)) && !IsBatchFile(CorruptName(name))
    ensures TmpName(name) != name
  {
    SideFilesAreNotListed(name, Timestamps.Civil(0, 0, 0, 0, 0, 0), "");
    assert |TmpName(name)| != |name|;
  }

  /** The temporary file is not listed, and the file it becomes holds the batch in hand. */
  lemma SpooledIsGenuine(w: World, s: Step)
    requires WireInv(w) && DiskInv(w) && AgentInv(w) && Enabled(w, s) && (s.BeginWrite? || s.EndWrite? || s.Rename?)
    ensures DiskInv(Apply(w, s))
  {
    hide IsBatchFile, TmpName, Listing, Counted, HasBatch, SetAside, Outgoing;
    NotListed(if s.BeginWrite? then s.name else w.agent.name);
  }

  lemma ListedStaysGenuine(w: World, s: Step)
    requires WireInv(w) && DiskInv(w) && AgentInv(w) && Enabled(w, s) && TouchesDisk(s) && !s.SkipCorrupt?
    ensures DiskInv(Apply(w, s))
  {
    hide IsBatchFile, TmpName, Listing, Counted, HasBatch, SetAside, Outgoing, WireInv, AgentInv;
    if s.BeginWrite? || s.EndWrite? || s.Rename? { SpooledIsGenuine(w, s); }
  }

  lemma LocalKeepsDisk(w: World, s: Step)
    requires WireInv(w) && DiskInv(w) && AgentInv(w) && Enabled(w, s) && IsLocal(s)
    ensures DiskInv(Apply(w, s))
  {
    var w' := Apply(w, s);
    assert forall p :: Genuine(w, p) ==> Genuine(w', p) by {
      assert forall id :: id in w.minted ==> id in w'.minted && w'.minted[id] == w.minted[id];
    }
    NeverCorrupt(w);
    if TouchesDisk(s) {
      ListedStaysGenuine(w, s);
    }
  }

  lemma RemovalKeepsAgent(w: World, s: Step)
    requires AgentInv(w) && Enabled(w, s) && (s.RemoveSent? || s.PruneOldest?)
    ensures AgentInv(Apply(w, s))
  {
    hide IsBatchFile, HasBatch, TmpName;
  }

  lemma SpoolStepKeepsAgent(w: World, s: Step)
    requires AgentInv(w) && Enabled(w, s) && (s.BeginWrite? || s.EndWrite? || s.Rename? || s.SpoolFails?)
    ensures AgentInv(Apply(w, s))
  {
    hide IsBatchFile, HasBatch, TmpName, Listing, Counted, StrictlySorted, SetAside, Outgoing;
    match s
    case BeginWrite(name, _) => NotListed(name);
    case EndWrite(_) => NotListed(w.agent.name);
    case Rename(_) => SortedIsDistinct(Apply(w, s).agent.todo);
    case SpoolFails(_) =>
  }

  lemma StartKeepsAgent(w: World)
    requires AgentInv(w) && Enabled(w, Start)
    ensures AgentInv(Apply(w, Start))
  {
    hide IsBatchFile, TmpName, HasBatch;
    SortedIsDistinct(Listing(w.disk));
  }

  lemma AnswerKeepsAgent(w: World)
    requires WireInv(w) && AgentInv(w) && Enabled(w, DrainAnswered)
    ensures AgentInv(Apply(w, DrainAnswered))
  {
    hide IsBatchFile, TmpName, HasBatch;
  }

  lemma QuietStepKeepsAgent(w: World, s: Step)
    requires AgentInv(w) && Enabled(w, s) && IsLocal(s) && !TouchesDisk(s) && !s.Start? && !s.DrainAnswered?
    ensures AgentInv(Apply(w, s))
  {
    hide IsBatchFile, TmpName, HasBatch, Listing, Counted, SetAside, Outgoing;
    assert Apply(w, s).disk == w.disk && Apply(w, s).wire.core == w.wire.core;
  }

  lemma LocalKeepsAgent(w: World, s: Step)
    requires WireInv(w) && DiskInv(w) && AgentInv(w) && Enabled(w, s) && IsLocal(s)
    ensures AgentInv(Apply(w, s))
  {
    NeverCorrupt(w);
    if s.RemoveSent? || s.PruneOldest? {
      RemovalKeepsAgent(w, s);
    } else if TouchesDisk(s) {
      SpoolStepKeepsAgent(w, s);
    } else if s.Start? {
      StartKeepsAgent(w);
    } else if s.DrainAnswered? {
      AnswerKeepsAgent(w);
    } else {
      QuietStepKeepsAgent(w, s);
    }
  }

  /** A file only leaves the listing once it is stored, pruned, or found undecodable. */
  lemma LocalKeepsFile(w: World, s: Step, n: string)
    requires DiskInv(w) && AgentInv(w) && Enabled(w, s) && IsLocal(s)
    requires n in w.disk && IsBatchFile(n)
    ensures var w' := Apply(w, s);
            || (n in w'.disk && w'.disk[n] == w.disk[n])
            || (s.RemoveSent? && HasBatch(w'.wire.core, w.disk[n].content.value.batch))
            || (s.PruneOldest? && w.disk[n].content.value.batch in w'.pruned)
  {
    if s.BeginWrite? { NotListed(s.name); }
    if w.agent.Writing? || w.agent.Written? { NotListed(w.agent.name); }
  }

  lemma LocalKeepsAccounts(w: World, s: Step)
    requires DiskInv(w) && AgentInv(w) && AllAccounted(w) && Enabled(w, s) && IsLocal(s)
    requires WireInv(w)
    ensures AllAccounted(Apply(w, s))
  {
    hide IsBatchFile, TmpName, Listing, Counted, HasBatch, SetAside, Outgoing;
    var w' := Apply(w, s);
    assert w'.wire.core == w.wire.core;
    assert w.foreign <= w'.foreign && w.lost <= w'.lost && w.pruned <= w'.pruned;
    forall id | id in w'.minted ensures Accounted(w', id) {
      if id in w.minted {
        assert Accounted(w, id);
        if Waits(w, id) {
          var n :| n in w.disk && IsBatchFile(n) && w.disk[n].content.Some? && w.disk[n].content.value.batch == id;
          LocalKeepsFile(w, s, n);
        } else if id in InHand(w.agent) && s.Rename? {
          assert w'.disk[w.agent.name].content == Some(w.minted[id]);
        }
      }
    }
  }

  lemma StepKeeps(w: World, s: Step)
    requires Inv(w) && Enabled(w, s)
    ensures Inv(Apply(w, s))
  {
    if s.Arrival? {
      ArriveKeeps(w, s.d);
    } else if s.OtherWrite? {
      OtherWriteKeeps(w, s.rows);
    } else {
      LocalKeepsStored(w, s);
      LocalKeepsWire(w, s);
      LocalKeepsDisk(w, s);
      LocalKeepsAgent(w, s);
      LocalKeepsAccounts(w, s);
    }
  }

  lemma {:induction false} RunKeeps(w: World, trace: seq<Step>)
    requires Inv(w) && Run(w, trace).Some?
    ensures Inv(Run(w, trace).value)
    decreases |trace|
  {
    if trace != [] {
      StepKeeps(w, trace[0]);
      RunKeeps(Apply(w, trace[0]), trace[1..]);
    }
  }

  lemma {:induction false} RunConcat(w: World, a: seq<Step>, b: seq<Step>)
    requires Run(w, a).Some?
    ensures Run(w, a + b) == Run(Run(w, a).value, b)
    decreases |a|
  {
    if a == [] {
      assert a + b == b;
    } else {
      assert (a + b)[1..] == a[1..] + b;
      RunConcat(Apply(w, a[0]), a[1..], b);
    }
  }
}
