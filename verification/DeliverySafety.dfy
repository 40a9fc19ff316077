/** What holds of every run of the delivery steps, crashes included. */
module DeliverySafety {
  import opened Sequences
  import opened BatchStore
  import opened Outbox
  import opened Delivery

  lemma {:induction false} DistinctCount(rows: seq<BatchRow>, id: string)
    requires forall i, j :: 0 <= i < j < |rows| ==> rows[i].id != rows[j].id
    ensures Count(rows, (r: BatchRow) => r.id == id) <= 1
  {
    var p := (r: BatchRow) => r.id == id;
    if rows != [] {
      DistinctCount(rows[1..], id);
      if rows[0].id == id {
        CountPositive(rows[1..], p);
      }
    }
  }

  /**
   * Whatever is lost, late, repeated or crashed: a batch id has at most one row, and the rows
   * that came from it are either none or exactly the minted batch's findings, in order.
   */
  lemma {:induction false} ExactlyOnce(limit: nat, trace: seq<Step>, id: string)
    requires Run(Init(limit), trace).Some?
    ensures var w := Run(Init(limit), trace).value;
            && Count(w.wire.core.batches, (r: BatchRow) => r.id == id) <= 1
            && (HasBatch(w.wire.core, id) ==> id in w.minted)
            && Contents(RowsOf(w.wire.core, id)) == Expected(w, id)
  {
    InitInv(limit);
    RunKeeps(Init(limit), trace);
    var w := Run(Init(limit), trace).value;
    DistinctCount(w.wire.core.batches, id);
  }

  /**
   * Between ticks, up or down, a batch of this agent whose tick did not crash, whose spool write
   * did not fail and that Prune did not remove is stored whole or waits, whole, in a listed file.
   */
  lemma {:induction false} NoSilentLoss(limit: nat, trace: seq<Step>, id: string)
    requires Run(Init(limit), trace).Some?
    requires var w := Run(Init(limit), trace).value;
             (w.agent.Idle? || w.agent.Down?) && id in w.minted
             && id !in w.foreign && id !in w.lost && id !in w.pruned
    ensures var w := Run(Init(limit), trace).value;
            || HasBatch(w.wire.core, id)
            || exists n :: n in Listing(w.disk) && n in w.disk && w.disk[n].content == Some(w.minted[id])
  {
    InitInv(limit);
    RunKeeps(Init(limit), trace);
    var w := Run(Init(limit), trace).value;
    assert Accounted(w, id);
    if Waits(w, id) {
      var n :| n in w.disk && IsBatchFile(n) && w.disk[n].content.Some? && w.disk[n].content.value.batch == id;
      assert n in Listing(w.disk);
    }
  }

  /** A crash never exposes a half-written file: every listed file decodes to a genuine batch. */
  lemma {:induction false} NoPartialFiles(limit: nat, trace: seq<Step>, n: string)
    requires Run(Init(limit), trace).Some?
    requires n in Listing(Run(Init(limit), trace).value.disk)
    ensures var w := Run(Init(limit), trace).value;
            n in w.disk && w.disk[n].content.Some? && Genuine(w, w.disk[n].content.value)
  {
    InitInv(limit);
    RunKeeps(Init(limit), trace);
  }
}
