/** One remote-mode tick (cmd/wanderer/agent.go), and that every tick is a run of the delivery steps. */
module AgentTick {
  import opened Sequences
  import opened BatchStore
  import opened Wire
  import opened Outbox
  import D = Delivery
  import S = DeliverySafety

  const MAX_ATTEMPTS := 3

  /** Up to left attempts, each a POST of the same parcel. */
  function Retry(w: Wire, p: Parcel, fates: seq<Fate>, left: nat): (Wire, seq<Fate>, bool)
    decreases left
  {
    if left == 0 then (w, fates, false)
    else
      var (w', ok) := Post(w, p, NextFate(fates));
      if ok then (w', LaterFates(fates), true) else Retry(w', p, LaterFates(fates), left - 1)
  }

  /** The attempts sendWithRetry makes: at most three, at least one, fewer when the context expires. */
  function Attempts(maxAttempts: nat, expiresAfter: nat): nat {
    var most := if maxAttempts > MAX_ATTEMPTS then MAX_ATTEMPTS else maxAttempts;
    var patience := if expiresAfter == 0 then 1 else expiresAfter;
    if most < patience then most else patience
  }

  /** Success means that some attempt was answered with a 2xx for this batch. */
  lemma {:induction false} RetryAcked(w: Wire, p: Parcel, fates: seq<Fate>, left: nat)
    ensures Retry(w, p, fates, left).2 ==> p.batch in Retry(w, p, fates, left).0.acked
    decreases left
  {
    if left > 0 && !Post(w, p, NextFate(fates)).1 {
      RetryAcked(Post(w, p, NextFate(fates)).0, p, LaterFates(fates), left - 1);
    }
  }

  /** What varies from tick to tick; parcel is None when marshalling or minting the id fails. */
  datatype Tick = Tick(parcel: Option<Parcel>, expiresAfter: nat, name: string, size: nat, drain: DrainIo,
                       spool: SpoolIo)

  /** Sending the tick's batch: the wire, the fates left, and whether an attempt was answered. */
  function Sent(w: Wire, fates: seq<Fate>, t: Tick): (Wire, seq<Fate>, bool)
    requires t.parcel.Some?
  {
    Retry(w, t.parcel.value, fates, Attempts(MAX_ATTEMPTS, t.expiresAfter))
  }

  ghost function TickResult(d: Disk, w: Wire, fates: seq<Fate>, limit: nat, t: Tick): (Disk, Wire, seq<Fate>) {
    var r := DrainAll(d, w, fates, t.drain);
    if t.parcel.None? then (r.disk, r.wire, r.fates)
    else
      var (w', later, ok) := Sent(r.wire, r.fates, t);
      (if ok then r.disk else SpoolResult(r.disk, t.parcel.value, t.name, t.size, t.spool, limit).0, w', later)
  }

  // ----- What a tick achieves -----

  /** What the core has acknowledged it has. */
  ghost predicate AckedIsStored(w: Wire) {
    forall id :: id in w.acked ==> HasBatch(w.core, id)
  }

  lemma ArrivalStored(w: Wire, d: Delivery)
    requires AckedIsStored(w)
    ensures AckedIsStored(Arrive(w, d))
  {
    var p := d.parcel;
    D.HasBatchAfter(w.core, p.scan, p.batch, TagInventory(p.findings), d.now, d.dbFails);
    hide HasBatch, TagInventory;
    var (_, o) := Append(w.core, p.scan, p.batch, TagInventory(p.findings), d.now, d.dbFails);
    assert o.Duplicate? ==> HasBatch(w.core, p.batch) by {
      AppendRows(w.core, p.scan, p.batch, TagInventory(p.findings), d.now, d.dbFails, "");
    }
  }

  lemma {:induction false} ArrivalsStored(w: Wire, ds: seq<Delivery>)
    requires AckedIsStored(w)
    ensures AckedIsStored(ArriveAll(w, ds))
    decreases |ds|
  {
    if ds != [] {
      ArrivalStored(w, ds[0]);
      ArrivalsStored(Arrive(w, ds[0]), ds[1..]);
    }
  }

  lemma PostStored(w: Wire, p: Parcel, fate: Fate)
    requires AckedIsStored(w)
    ensures AckedIsStored(Post(w, p, fate).0)
  {
    ArrivalsStored(if fate.leaves then w.(sent := w.sent + {p}) else w, fate.arrivals);
  }

  lemma {:induction false} RetryStored(w: Wire, p: Parcel, fates: seq<Fate>, left: nat)
    requires AckedIsStored(w)
    ensures AckedIsStored(Retry(w, p, fates, left).0)
    decreases left
  {
    if left > 0 {
      PostStored(w, p, NextFate(fates));
      hide Post;
      RetryStored(Post(w, p, NextFate(fates)).0, p, LaterFates(fates), left - 1);
    }
  }

  lemma {:induction false} DrainStored(d: Disk, w: Wire, l: seq<string>, fates: seq<Fate>, io: DrainIo)
    requires AckedIsStored(w)
    ensures AckedIsStored(Drain(d, w, l, fates, io).wire)
    decreases |l|
  {
    if l != [] && l[0] in d && l[0] !in io.unreadable {
      hide Post, AckedIsStored;
      match d[l[0]].content
      case None => DrainStored(if l[0] in io.unmovable then d else SetAside(d, l[0]), w, l[1..], fates, io);
      case Some(p) =>
        PostStored(w, p, NextFate(fates));
        DrainStored(d - {l[0]}, Post(w, p, NextFate(fates)).0, l[1..], LaterFates(fates), io);
    }
  }

  /** The wire after k POSTs of p. */
  function Posted(w: Wire, p: Parcel, fates: seq<Fate>, k: nat): Wire
    decreases k
  {
    if k == 0 then w else Posted(Post(w, p, NextFate(fates)).0, p, LaterFates(fates), k - 1)
  }

  function FateAt(fates: seq<Fate>, k: nat): Fate {
    if k < |fates| then fates[k] else Fate(false, [], false)
  }

  /** The POST numbered k, counted from 0, would arrive, be accepted and be answered. */
  ghost predicate HealthyAt(w: Wire, p: Parcel, fates: seq<Fate>, k: nat) {
    Healthy(Posted(w, p, fates, k), p, FateAt(fates, k))
  }

  /** One of the first three POSTs of p is healthy, and the context lasts until then. */
  ghost predicate SomeHealthy(w: Wire, p: Parcel, fates: seq<Fate>, expiresAfter: nat) {
    || HealthyAt(w, p, fates, 0)
    || (expiresAfter > 1 && HealthyAt(w, p, fates, 1))
    || (expiresAfter > 2 && HealthyAt(w, p, fates, 2))
  }

  lemma {:induction false} RetrySucceeds(w: Wire, p: Parcel, fates: seq<Fate>, left: nat, k: nat)
    requires k < left && HealthyAt(w, p, fates, k)
    ensures Retry(w, p, fates, left).2
    decreases k
  {
    if k == 0 {
      HealthyPosts(w, p, NextFate(fates));
    } else {
      hide Healthy, Post;
      assert FateAt(LaterFates(fates), k - 1) == FateAt(fates, k);
      if !Post(w, p, NextFate(fates)).1 {
        RetrySucceeds(Post(w, p, NextFate(fates)).0, p, LaterFates(fates), left - 1, k - 1);
      }
    }
  }

  lemma {:induction false} RetryFails(w: Wire, p: Parcel, fates: seq<Fate>, left: nat)
    requires forall k :: 0 <= k < left ==> !FateAt(fates, k).answered
    ensures !Retry(w, p, fates, left).2
    decreases left
  {
    if left > 0 {
      assert !FateAt(fates, 0).answered;
      forall k | 0 <= k < left - 1 ensures !FateAt(LaterFates(fates), k).answered {
        assert !FateAt(fates, k + 1).answered;
      }
      RetryFails(Post(w, p, NextFate(fates)).0, p, LaterFates(fates), left - 1);
    }
  }

  /**
   * How a tick can end, at disk e and wire v. If one of the three POSTs of its batch is healthy the core has the batch
   * and no file is added, so that none is left when the drain is healthy too. If none of them is answered, the batch is
   * spooled.
   */
  ghost predicate TickEnds(d: Disk, w: Wire, fates: seq<Fate>, e: Disk, v: Wire, limit: nat, t: Tick) {
    var r := DrainAll(d, w, fates, t.drain);
    var drained := t.drain.listable && AllHealthy(d, w, Listing(d), fates, t.drain);
    match t.parcel
    case None => e == r.disk && v == r.wire && (drained ==> Listing(e) == [])
    case Some(p) =>
      && (SomeHealthy(r.wire, p, r.fates, t.expiresAfter) ==> e == r.disk && (drained ==> Listing(e) == []))
      && (SomeHealthy(r.wire, p, r.fates, t.expiresAfter) && AckedIsStored(w) ==> HasBatch(v.core, p.batch))
      && ((forall k :: 0 <= k < 3 ==> !FateAt(r.fates, k).answered) ==>
          exists ok :: SpoolEnds(r.disk, e, ok, p, t.name, t.size, t.spool, limit))
  }

  lemma SentAchieves(w: Wire, r: Drained, t: Tick)
    requires t.parcel.Some?
    ensures var (v, _, ok) := Sent(r.wire, r.fates, t);
            && (SomeHealthy(r.wire, t.parcel.value, r.fates, t.expiresAfter) ==> ok && t.parcel.value.batch in v.acked)
            && ((forall k :: 0 <= k < 3 ==> !FateAt(r.fates, k).answered) ==> !ok)
  {
    hide HealthyAt, Retry;
    var p, n := t.parcel.value, Attempts(MAX_ATTEMPTS, t.expiresAfter);
    RetryAcked(r.wire, p, r.fates, n);
    if k :| 0 <= k < n && HealthyAt(r.wire, p, r.fates, k) {
      RetrySucceeds(r.wire, p, r.fates, n, k);
    }
    if forall k :: 0 <= k < 3 ==> !FateAt(r.fates, k).answered {
      RetryFails(r.wire, p, r.fates, n);
    }
  }

  lemma TickAchieves(d: Disk, w: Wire, fates: seq<Fate>, limit: nat, t: Tick)
    ensures var (e, v, _) := TickResult(d, w, fates, limit, t); TickEnds(d, w, fates, e, v, limit, t)
  {
    var r := DrainAll(d, w, fates, t.drain);
    var (e, v, _) := TickResult(d, w, fates, limit, t);
    hide Post, Drain, Healthy, AllHealthy, SpoolEnds, SpoolResult, Retry, HasBatch, Listing, HealthyAt;
    if t.drain.listable && AllHealthy(d, w, Listing(d), fates, t.drain) {
      HealthyDrainEmpties(d, w, fates, t.drain);
    }
    if t.parcel.Some? {
      SentAchieves(w, r, t);
      SpoolPrunes(r.disk, t.parcel.value, t.name, t.size, t.spool, limit);
      if AckedIsStored(w) {
        DrainStored(d, w, Listing(d), fates, t.drain);
        RetryStored(r.wire, t.parcel.value, r.fates, Attempts(MAX_ATTEMPTS, t.expiresAfter));
      }
    }
  }

  class Process {
    const dir: Directory
    const remote: Remote

    constructor (dir: Directory, remote: Remote)
      ensures this.dir == dir && this.remote == remote
    {
      this.dir, this.remote := dir, remote;
    }

    /** Answers nil, here true, without sending anything when maxAttempts is 0. */
    method SendWithRetry(p: Parcel, maxAttempts: nat, expiresAfter: nat) returns (ok: bool)
      modifies remote`sent, remote`acked, remote`fates, remote.store
      ensures maxAttempts > 0 ==>
                (remote.Snapshot(), remote.fates, ok) ==
                Retry(old(remote.Snapshot()), p, old(remote.fates), Attempts(maxAttempts, expiresAfter))
      ensures maxAttempts > 0 && ok ==> p.batch in remote.acked
      ensures maxAttempts == 0 ==> ok && remote.Snapshot() == old(remote.Snapshot())
    {
      var most := if maxAttempts > MAX_ATTEMPTS then MAX_ATTEMPTS else maxAttempts;
      var lastErr := false;
      ghost var goal := Retry(remote.Snapshot(), p, remote.fates, Attempts(maxAttempts, expiresAfter));
      ghost var w := remote.Snapshot();
      RetryAcked(w, p, remote.fates, Attempts(maxAttempts, expiresAfter));
      for i := 0 to most
        invariant i > 0 ==> lastErr
        invariant i == 0 ==> !lastErr && remote.Snapshot() == w
        invariant i <= Attempts(maxAttempts, expiresAfter)
        invariant goal == Retry(remote.Snapshot(), p, remote.fates, Attempts(maxAttempts, expiresAfter) - i)
      {
        if i > 0 && i >= expiresAfter {
          return false;
        }
        var sent := remote.SendBytes(p);
        if sent {
          return true;
        }
        lastErr := true;
      }
      return !lastErr;
    }

    /** Drain the outbox, mint one batch, send it, and spool it if that failed. */
    method RunTick(t: Tick)
      modifies dir, remote`sent, remote`acked, remote`fates, remote.store
      ensures (dir.disk, remote.Snapshot(), remote.fates) ==
              TickResult(old(dir.disk), old(remote.Snapshot()), old(remote.fates), Limit(dir.maxBytes), t)
      ensures TickEnds(old(dir.disk), old(remote.Snapshot()), old(remote.fates), dir.disk, remote.Snapshot(),
                       Limit(dir.maxBytes), t)
    {
      TickAchieves(dir.disk, remote.Snapshot(), remote.fates, Limit(dir.maxBytes), t);
      hide TickEnds;
      var _ := dir.DrainTo(remote, t.drain);
      if t.parcel.None? {
        return;
      }
      var ok := SendWithRetry(t.parcel.value, MAX_ATTEMPTS, t.expiresAfter);
      if !ok {
        var _ := dir.Spool(t.parcel.value, t.name, t.size, t.spool);
      }
    }
  }

  // ----- The tick refines the step system -----

  ghost predicate Reaches(w: D.World, v: D.World) {
    exists trace :: D.Run(w, trace) == Some(v)
  }

  lemma Stay(w: D.World)
    ensures Reaches(w, w)
  {
    assert D.Run(w, []) == Some(w);
  }

  lemma Chain(u: D.World, v: D.World, w: D.World)
    requires Reaches(u, v) && Reaches(v, w)
    ensures Reaches(u, w)
  {
    var a :| D.Run(u, a) == Some(v);
    var b :| D.Run(v, b) == Some(w);
    D.RunConcat(u, a, b);
    assert D.Run(u, a + b) == Some(w);
  }

  /** One enabled step in front of a run. */
  lemma Then(w: D.World, s: D.Step, v: D.World)
    requires D.Enabled(w, s) && Reaches(D.Apply(w, s), v)
    ensures Reaches(w, v)
  {
    var b :| D.Run(D.Apply(w, s), b) == Some(v);
    assert ([s] + b)[1..] == b;
    assert D.Run(w, [s] + b) == Some(v);
  }

  lemma {:induction false} ArrivalsReach(w: D.World, ds: seq<Delivery>)
    ensures Reaches(w, w.(wire := ArriveAll(w.wire, ds)))
    decreases |ds|
  {
    if ds == [] {
      Stay(w);
    } else {
      var v := w.(wire := Arrive(w.wire, ds[0]));
      ArrivalsReach(v, ds[1..]);
      if ds[0].parcel in w.wire.sent {
        Then(w, D.Arrival(ds[0]), w.(wire := ArriveAll(w.wire, ds)));
      }
    }
  }

  lemma PostReaches(w: D.World, p: Parcel, fate: Fate)
    requires D.Outgoing(w) == Some(p)
    ensures Reaches(w, w.(wire := Post(w.wire, p, fate).0))
  {
    if fate.leaves {
      var v := D.Apply(w, D.Transmit);
      ArrivalsReach(v, fate.arrivals);
      Then(w, D.Transmit, w.(wire := Post(w.wire, p, fate).0));
    } else {
      ArrivalsReach(w, fate.arrivals);
    }
  }

  lemma {:induction false} DrainReaches(w: D.World, l: seq<string>, fates: seq<Fate>, io: DrainIo)
    requires w.agent == D.Draining(l)
    ensures var r := Drain(w.disk, w.wire, l, fates, io);
            Reaches(w, w.(disk := r.disk, wire := r.wire, agent := D.DrainDone))
    decreases |l|
  {
    hide Reaches;
    var r := Drain(w.disk, w.wire, l, fates, io);
    var goal := w.(disk := r.disk, wire := r.wire, agent := D.DrainDone);
    if l == [] || l[0] !in w.disk || l[0] in io.unreadable {
      Stay(goal);
      Then(w, D.DrainStops, goal);
    } else {
      match w.disk[l[0]].content
      case None =>
        var skip := D.SkipCorrupt(l[0] !in io.unmovable);
        DrainReaches(D.Apply(w, skip), l[1..], fates, io);
        Then(w, skip, goal);
      case Some(p) =>
        var (wire, ok) := Post(w.wire, p, NextFate(fates));
        var v := w.(wire := wire);
        PostReaches(w, p, NextFate(fates));
        if ok && l[0] !in io.undeletable {
          var u := D.Apply(v, D.DrainAnswered);
          DrainReaches(D.Apply(u, D.RemoveSent), l[1..], LaterFates(fates), io);
          Then(u, D.RemoveSent, goal);
          Then(v, D.DrainAnswered, goal);
        } else {
          Stay(goal);
          Then(v, D.DrainStops, goal);
        }
        Chain(w, v, goal);
    }
  }

  lemma {:induction false} RetryReaches(w: D.World, p: Parcel, fates: seq<Fate>, left: nat, n: nat)
    requires w.agent == D.Sending(p.batch, left) && n <= left
    requires p.batch in w.minted && w.minted[p.batch] == p
    ensures var (wire, _, ok) := Retry(w.wire, p, fates, n);
            Reaches(w, w.(wire := wire, agent := if ok then D.Idle else D.Unsent(p.batch)))
    decreases n
  {
    hide Reaches;
    var (end, _, ok) := Retry(w.wire, p, fates, n);
    var goal := w.(wire := end, agent := if ok then D.Idle else D.Unsent(p.batch));
    if n == 0 {
      Stay(goal);
      Then(w, D.GiveUp, goal);
    } else {
      var (wire, sent) := Post(w.wire, p, NextFate(fates));
      var v := w.(wire := wire);
      PostReaches(w, p, NextFate(fates));
      if sent {
        Stay(goal);
        Then(v, D.SendAnswered, goal);
      } else {
        RetryReaches(D.Apply(v, D.AttemptFails), p, LaterFates(fates), left - 1, n - 1);
        Then(v, D.AttemptFails, goal);
      }
      Chain(w, v, goal);
    }
  }

  /** The batches of the files that are in d and no longer in e. */
  function Removed(d: Disk, e: Disk): set<string> {
    set n | n in d && n !in e && d[n].content.Some? :: d[n].content.value.batch
  }

  /** The world after the disk of w was pruned to e. */
  function PrunedTo(w: D.World, e: Disk): D.World {
    w.(disk := e, pruned := w.pruned + Removed(w.disk, e), agent := D.Idle)
  }

  lemma RemovedFirst(d: Disk, n: string, e: Disk)
    requires n in d && n !in e
    ensures Removed(d, e) == (if d[n].content.Some? then {d[n].content.value.batch} else {}) + Removed(d - {n}, e)
  {
  }

  lemma OldestReaches(w: D.World, e: Disk)
    requires D.Enabled(w, D.PruneOldest) && w.agent.todo[0] !in e
    requires Reaches(D.Apply(w, D.PruneOldest), PrunedTo(D.Apply(w, D.PruneOldest), e))
    ensures Reaches(w, PrunedTo(w, e))
  {
    hide Reaches;
    RemovedFirst(w.disk, w.agent.todo[0], e);
    assert PrunedTo(D.Apply(w, D.PruneOldest), e) == PrunedTo(w, e);
    Then(w, D.PruneOldest, PrunedTo(w, e));
  }

  lemma NothingRemoved(w: D.World)
    ensures PrunedTo(w, w.disk) == w.(agent := D.Idle)
  {
    assert Removed(w.disk, w.disk) == {};
    assert w.pruned + {} == w.pruned;
  }

  lemma PruneStopReaches(w: D.World)
    requires w.agent.Pruning?
    ensures Reaches(w, PrunedTo(w, w.disk))
  {
    hide Reaches;
    NothingRemoved(w);
    Stay(D.Apply(w, D.PruneStops));
    Then(w, D.PruneStops, PrunedTo(w, w.disk));
  }

  lemma PruneSkipReaches(w: D.World, e: Disk)
    requires w.agent.Pruning? && w.agent.todo != []
    requires Reaches(D.Apply(w, D.PruneSkip), PrunedTo(D.Apply(w, D.PruneSkip), e))
    ensures Reaches(w, PrunedTo(w, e))
  {
    hide Reaches, Removed;
    Then(w, D.PruneSkip, PrunedTo(w, e));
  }

  lemma {:induction false} PruneReaches(w: D.World, l: seq<string>, io: PruneIo)
    requires Distinct(l) && forall n :: n in l ==> n in w.disk
    requires w.agent.Pruning? && w.agent.todo == l
    ensures Reaches(w, PrunedTo(w, Remove(w.disk, l, w.agent.total, w.limit, io).0))
    decreases |l|
  {
    hide Reaches, PrunedTo;
    var e := Remove(w.disk, l, w.agent.total, w.limit, io).0;
    if l == [] || w.agent.total <= w.limit || (l[0] !in io.unsized && l[0] in io.stuck) {
      PruneStopReaches(w);
    } else if l[0] in io.unsized {
      PruneReaches(D.Apply(w, D.PruneSkip), l[1..], io);
      PruneSkipReaches(w, e);
    } else {
      var u := D.Apply(w, D.PruneOldest);
      assert u.disk == w.disk - {l[0]} && u.limit == w.limit && D.Enabled(w, D.PruneOldest);
      assert u.agent == D.Pruning(l[1..], w.agent.total - w.disk[l[0]].size);
      assert e == Remove(u.disk, l[1..], u.agent.total, u.limit, io).0;
      hide D.Apply, D.Enabled, Remove;
      PruneReaches(u, l[1..], io);
      RemoveIsSafe(u.disk, l[1..], u.agent.total, w.limit, io);
      OldestReaches(w, e);
    }
  }

  /** The world after Spool ran in w. */
  ghost function SpoolWorld(w: D.World, p: Parcel, t: Tick): D.World {
    var e := SpoolResult(w.disk, p, t.name, t.size, t.spool, w.limit).0;
    if p.scan != "" && p.batch != "" && t.spool.Placed?
    then PrunedTo(w.(disk := PlacedDisk(w.disk, p, t.name, t.size)), e)
    else w.(disk := e, lost := w.lost + {p.batch}, agent := D.Idle)
  }

  lemma PlacedReaches(w: D.World, p: Parcel, t: Tick)
    requires w.agent == D.Written(p.batch, t.name) && TmpName(t.name) in w.disk
             && w.disk[TmpName(t.name)] == File(Some(p), t.size)
    requires t.spool.Placed?
    ensures var placed := PlacedDisk(w.disk, p, t.name, t.size);
            Reaches(w, PrunedTo(w.(disk := placed), Pruned(placed, w.limit, t.spool.prune).0))
  {
    hide Reaches, TmpName;
    var io := t.spool.prune;
    var u := D.Apply(w, D.Rename(io));
    var goal := PrunedTo(w.(disk := u.disk), Pruned(u.disk, w.limit, io).0);
    ListingIsDistinct(u.disk);
    if io.listable {
      PruneReaches(u, Listing(u.disk), io);
    } else {
      NothingRemoved(u);
      Stay(goal);
      Then(u, D.PruneStops, goal);
    }
    Then(w, D.Rename(io), goal);
  }

  /** The temporary file is in place, whole or cut short. */
  lemma WriteReaches(w: D.World, p: Parcel, t: Tick, v: D.World)
    requires w.agent == D.Unsent(p.batch) && p.batch in w.minted && w.minted[p.batch] == p
    requires IsBatchFile(t.name) && t.name !in w.disk
    requires Reaches(w.(disk := w.disk[TmpName(t.name) := File(Some(p), t.size)],
                        agent := D.Written(p.batch, t.name)), v)
    ensures Reaches(w, v)
  {
    hide Reaches, TmpName;
    var a := D.Apply(w, D.BeginWrite(t.name, 0));
    assert D.Apply(a, D.EndWrite(t.size)) ==
           w.(disk := w.disk[TmpName(t.name) := File(Some(p), t.size)], agent := D.Written(p.batch, t.name));
    Then(a, D.EndWrite(t.size), v);
    Then(w, D.BeginWrite(t.name, 0), v);
  }

  /** Spools that end before the file is wholly written. */
  lemma UnwrittenReaches(w: D.World, p: Parcel, t: Tick)
    requires w.agent == D.Unsent(p.batch) && p.batch != ""
    requires IsBatchFile(t.name) && t.name !in w.disk
    requires p.scan == "" || t.spool.Unwritten? || t.spool.CutShort?
    ensures Reaches(w, SpoolWorld(w, p, t))
  {
    hide Reaches, IsBatchFile, Pruned, TmpName;
    var v := SpoolWorld(w, p, t);
    Stay(v);
    if p.scan == "" || t.spool.Unwritten? {
      Then(w, D.SpoolFails(false), v);
    } else {
      var begin := D.BeginWrite(t.name, t.spool.bytes);
      Then(D.Apply(w, begin), D.SpoolFails(false), v);
      Then(w, begin, v);
    }
  }

  lemma SpoolReaches(w: D.World, p: Parcel, t: Tick)
    requires w.agent == D.Unsent(p.batch) && p.batch in w.minted && w.minted[p.batch] == p && p.batch != ""
    requires IsBatchFile(t.name) && t.name !in w.disk && TmpName(t.name) !in w.disk
    ensures Reaches(w, SpoolWorld(w, p, t))
  {
    hide Reaches, IsBatchFile, Pruned, TmpName;
    if p.scan == "" || t.spool.Unwritten? || t.spool.CutShort? {
      UnwrittenReaches(w, p, t);
    } else {
      var v := SpoolWorld(w, p, t);
      var written := w.(disk := w.disk[TmpName(t.name) := File(Some(p), t.size)], agent := D.Written(p.batch, t.name));
      if t.spool.Unrenamed? {
        assert written.disk - {TmpName(t.name)} == w.disk - {TmpName(t.name)};
        Stay(v);
        Then(written, D.SpoolFails(t.spool.cleaned), v);
      } else {
        assert PlacedDisk(written.disk, p, t.name, t.size) == PlacedDisk(w.disk, p, t.name, t.size);
        PlacedReaches(written, p, t);
      }
      WriteReaches(w, p, t, v);
    }
  }

  /** The world after one tick: the program's disk and wire, and what became of the batches. */
  ghost function TickWorld(w: D.World, fates: seq<Fate>, t: Tick): (D.World, seq<Fate>) {
    var r := DrainAll(w.disk, w.wire, fates, t.drain);
    var drained := w.(disk := r.disk, wire := r.wire);
    if t.parcel.None? then (drained, r.fates)
    else
      var (wire, later, ok) := Sent(r.wire, r.fates, t);
      var sent := drained.(wire := wire, minted := w.minted[t.parcel.value.batch := t.parcel.value]);
      (if ok then sent else SpoolWorld(sent, t.parcel.value, t), later)
  }

  /** The batch ID and the file name are new. */
  predicate IsFresh(w: D.World, t: Tick) {
    && (t.parcel.Some? ==> t.parcel.value.batch != "" && t.parcel.value.batch !in w.minted)
    && IsBatchFile(t.name) && t.name !in w.disk && TmpName(t.name) !in w.disk
  }

  /** The tick does to disk and wire what RunTick does, whatever the network and the disk do. */
  lemma TickWorldIsTick(w: D.World, fates: seq<Fate>, t: Tick)
    ensures var (v, later) := TickWorld(w, fates, t);
            (v.disk, v.wire, later) == TickResult(w.disk, w.wire, fates, w.limit, t)
  {
  }

  lemma ReachesInv(w: D.World, v: D.World)
    requires Reaches(w, v) && D.Inv(w)
    ensures D.Inv(v)
  {
    var trace :| D.Run(w, trace) == Some(v);
    D.RunKeeps(w, trace);
  }

  lemma DrainAllReaches(w: D.World, fates: seq<Fate>, io: DrainIo)
    requires w.agent.Idle?
    ensures var r := DrainAll(w.disk, w.wire, fates, io);
            Reaches(w, w.(disk := r.disk, wire := r.wire, agent := D.DrainDone))
  {
    hide Reaches;
    var r := DrainAll(w.disk, w.wire, fates, io);
    var started, drained := D.Apply(w, D.Start), w.(disk := r.disk, wire := r.wire, agent := D.DrainDone);
    if io.listable {
      DrainReaches(started, Listing(w.disk), fates, io);
    } else {
      Stay(drained);
      Then(started, D.DrainStops, drained);
    }
    Then(w, D.Start, drained);
  }

  /** The second half of the tick. */
  lemma SendReaches(w: D.World, fates: seq<Fate>, t: Tick)
    requires w.agent.DrainDone? && t.parcel.Some? && IsFresh(w, t)
    ensures var (wire, _, ok) := Sent(w.wire, fates, t);
            var sent := w.(wire := wire, minted := w.minted[t.parcel.value.batch := t.parcel.value], agent := D.Idle);
            Reaches(w, if ok then sent else SpoolWorld(sent, t.parcel.value, t))
  {
    hide Reaches, IsBatchFile, TmpName;
    var p := t.parcel.value;
    var minted := D.Apply(w, D.Mint(p));
    var (wire, _, ok) := Sent(w.wire, fates, t);
    var sent := minted.(wire := wire, agent := if ok then D.Idle else D.Unsent(p.batch));
    RetryReaches(minted, p, fates, MAX_ATTEMPTS, Attempts(MAX_ATTEMPTS, t.expiresAfter));
    if !ok {
      SpoolReaches(sent, p, t);
      Chain(minted, sent, SpoolWorld(sent, p, t));
    }
    Then(w, D.Mint(p), if ok then sent else SpoolWorld(sent, p, t));
  }

  lemma {:induction false} DrainShrinks(d: Disk, w: Wire, l: seq<string>, fates: seq<Fate>, io: DrainIo)
    requires forall n :: n in l && n in d ==> d[n].content.Some?
    ensures Drain(d, w, l, fates, io).disk.Keys <= d.Keys
    decreases |l|
  {
    if l != [] && l[0] in d && l[0] !in io.unreadable {
      var p := d[l[0]].content.value;
      DrainShrinks(d - {l[0]}, Post(w, p, NextFate(fates)).0, l[1..], LaterFates(fates), io);
    }
  }

  /** With only genuine files listed, a drain creates no name. */
  lemma DrainAddsNothing(w: D.World, fates: seq<Fate>, io: DrainIo)
    requires D.Inv(w)
    ensures DrainAll(w.disk, w.wire, fates, io).disk.Keys <= w.disk.Keys
  {
    DrainShrinks(w.disk, w.wire, Listing(w.disk), fates, io);
  }

  /** The tick, with a fresh batch ID and file name, is a run of the step system that ends exactly in its world. */
  lemma TickReaches(w: D.World, fates: seq<Fate>, t: Tick)
    requires D.Inv(w) && w.agent.Idle? && IsFresh(w, t)
    ensures var v := TickWorld(w, fates, t).0; Reaches(w, v) && v.agent.Idle? && D.Inv(v)
  {
    hide Reaches, D.Inv, IsBatchFile, TmpName;
    var v := TickWorld(w, fates, t).0;
    var r := DrainAll(w.disk, w.wire, fates, t.drain);
    var drained := w.(disk := r.disk, wire := r.wire, agent := D.DrainDone);
    DrainAllReaches(w, fates, t.drain);
    if t.parcel.None? {
      Stay(v);
      Then(drained, D.NoBatch, v);
    } else {
      DrainAddsNothing(w, fates, t.drain);
      SendReaches(drained, r.fates, t);
    }
    Chain(w, drained, v);
    ReachesInv(w, v);
  }

  // ----- Any number of ticks -----

  ghost function Ticks(w: D.World, fates: seq<Fate>, ts: seq<Tick>): D.World
    decreases |ts|
  {
    if ts == [] then w
    else
      var (v, later) := TickWorld(w, fates, ts[0]);
      Ticks(v, later, ts[1..])
  }

  /** Every tick's batch ID and file name are new when it starts. */
  ghost predicate AllFresh(w: D.World, fates: seq<Fate>, ts: seq<Tick>)
    decreases |ts|
  {
    ts == [] ||
    (IsFresh(w, ts[0]) &&
     var (v, later) := TickWorld(w, fates, ts[0]);
     AllFresh(v, later, ts[1..]))
  }

  lemma {:induction false} TicksReach(w: D.World, fates: seq<Fate>, ts: seq<Tick>)
    requires D.Inv(w) && w.agent.Idle? && AllFresh(w, fates, ts)
    ensures Reaches(w, Ticks(w, fates, ts)) && Ticks(w, fates, ts).agent.Idle?
    decreases |ts|
  {
    hide Reaches, D.Inv, TickWorld, IsFresh;
    if ts == [] {
      Stay(w);
    } else {
      var (v, later) := TickWorld(w, fates, ts[0]);
      TickReaches(w, fates, ts[0]);
      TicksReach(v, later, ts[1..]);
      Chain(w, v, Ticks(w, fates, ts));
    }
  }

  /**
   * The agent program, tick after tick over any network and any failing disk operations: each batch is stored at most
   * once and whole, and one that neither failed to spool nor was pruned is stored or waits whole in a listed file.
   */
  lemma TicksAreSafe(limit: nat, fates: seq<Fate>, ts: seq<Tick>, id: string)
    requires AllFresh(D.Init(limit), fates, ts)
    ensures var w := Ticks(D.Init(limit), fates, ts);
            && Count(w.wire.core.batches, (r: BatchRow) => r.id == id) <= 1
            && Contents(RowsOf(w.wire.core, id)) == D.Expected(w, id)
            && (id in w.minted && id !in w.foreign && id !in w.lost && id !in w.pruned ==>
                HasBatch(w.wire.core, id)
                || exists n :: n in Listing(w.disk) && n in w.disk && w.disk[n].content == Some(w.minted[id]))
  {
    hide D.Inv;
    var start := D.Init(limit);
    var w := Ticks(start, fates, ts);
    D.InitInv(limit);
    TicksReach(start, fates, ts);
    var trace :| D.Run(start, trace) == Some(w);
    S.ExactlyOnce(limit, trace, id);
    if id in w.minted && id !in w.foreign && id !in w.lost && id !in w.pruned {
      S.NoSilentLoss(limit, trace, id);
    }
  }
}
