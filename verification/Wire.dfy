/** The lossy network between agent and core (internal/agent/remote.go). */
module Wire {
  import opened Sequences
  import opened Findings
  import opened BatchStore

  /** One batch as POSTed and as spooled: scan id, batch id and body. */
  datatype Parcel = Parcel(scan: string, batch: string, findings: seq<Finding>)

  /**
   * The core's tables, every request ever put on the wire, and the batches the core has
   * answered with a 2xx. A request stays deliverable: it can arrive late, repeatedly or never.
   */
  datatype Wire = Wire(core: Tables, sent: set<Parcel>, acked: set<string>)

  datatype Delivery = Delivery(parcel: Parcel, now: int, dbFails: bool)

  /**
   * What the network does during one POST: whether the request leaves, which requests reach
   * the core meanwhile (this one or older ones), and whether an answer gets back.
   */
  datatype Fate = Fate(leaves: bool, arrivals: seq<Delivery>, answered: bool)

  function Arrive(w: Wire, d: Delivery): Wire {
    if d.parcel !in w.sent then w
    else
      var (core, accepted) := Ingest(w.core, d.parcel.scan, d.parcel.batch, d.parcel.findings, d.now, d.dbFails);
      w.(core := core, acked := w.acked + if accepted then {d.parcel.batch} else {})
  }

  function ArriveAll(w: Wire, ds: seq<Delivery>): Wire
    decreases |ds|
  {
    if ds == [] then w else ArriveAll(Arrive(w, ds[0]), ds[1..])
  }

  function NextFate(fates: seq<Fate>): Fate {
    if fates == [] then Fate(false, [], false) else fates[0]
  }

  function LaterFates(fates: seq<Fate>): seq<Fate> {
    if fates == [] then [] else fates[1..]
  }

  /** One POST: the wire afterwards and whether the agent saw a 2xx for this batch. */
  function Post(w: Wire, p: Parcel, fate: Fate): (Wire, bool) {
    var w' := ArriveAll(if fate.leaves then w.(sent := w.sent + {p}) else w, fate.arrivals);
    (w', fate.leaves && fate.answered && p.batch in w'.acked)
  }

  /** The agent's HTTP client, with the network and the core behind it. */
  class Remote {
    const store: Store
    var sent: set<Parcel>
    var acked: set<string>
    var fates: seq<Fate>

    constructor (store: Store, fates: seq<Fate>)
      ensures this.store == store && this.fates == fates
      ensures Snapshot() == Wire(store.State(), {}, {})
    {
      this.store, this.fates := store, fates;
      sent, acked := {}, {};
    }

    function Snapshot(): Wire
      reads this, store
    {
      Wire(store.State(), sent, acked)
    }

    method SendBytes(p: Parcel) returns (ok: bool)
      modifies this`sent, this`acked, this`fates, store
      ensures (Snapshot(), ok) == Post(old(Snapshot()), p, NextFate(old(fates)))
      ensures fates == LaterFates(old(fates))
    {
      var fate := NextFate(fates);
      fates := LaterFates(fates);
      if fate.leaves {
        sent := sent + {p};
      }
      ghost var w := Snapshot();
      var ds := fate.arrivals;
      while ds != []
        invariant ArriveAll(w, fate.arrivals) == ArriveAll(Snapshot(), ds)
        invariant fates == LaterFates(old(fates))
        decreases |ds|
      {
        var d := ds[0];
        if d.parcel in sent {
          var accepted := store.IngestBatch(d.parcel.scan, d.parcel.batch, d.parcel.findings, d.now, d.dbFails);
          acked := acked + if accepted then {d.parcel.batch} else {};
        }
        ds := ds[1..];
      }
      ok := fate.leaves && fate.answered && p.batch in acked;
    }
  }
}
