/** A scan's concurrent probe passes (internal/scanner/scanner.go). */
module ProbePass {
  import opened Sequences
  import opened Strings
  import opened Findings

  /** What a probe's Run does: return, return late, return an error, or panic. */
  datatype Outcome =
    | Returned(found: seq<Finding>) | TimedOut(found: seq<Finding>) | Errored(found: seq<Finding>) | Panicked

  datatype Target = Target(domain: string, related: seq<string>)

  /** What a probe does depends on the target it is given, and on a world that is fixed here. */
  datatype Probe = Probe(id: string, run: Target -> Outcome)

  datatype Result = Result(findings: seq<Finding>, failed: bool)

  function Notice(probe: string, domain: string, severity: string): Finding {
    Finding("", probe, "", "", "", domain, severity, map[], "")
  }

  /** runOne: a timeout is a warning, a panic an error with a finding of its own. */
  function RunOne(p: Probe, t: Target): Result {
    match p.run(t)
    case Returned(fs) => Result(fs, false)
    case TimedOut(fs) => Result(fs + [Notice(p.id + ".timeout", t.domain, "info")], false)
    case Errored(fs) => Result(fs, true)
    case Panicked => Result([Notice(p.id + ".panic", t.domain, "concern")], true)
  }

  /** What a goroutine leaves in its slot. */
  function Slot(p: Probe, t: Target): Result {
    var r := RunOne(p, t);
    if r.failed then Result(r.findings + [Notice(p.id + ".error", t.domain, "concern")], true) else r
  }

  /** f is the finding a scan adds about probe id itself. */
  predicate IsNotice(f: Finding, id: string, what: string, t: Target, severity: string) {
    f.probe == id + what && f.subject == t.domain && f.severity == severity
  }

  /**
   * A slot holds all that its probe found, and a notice of a timeout, an error or a panic; the latter two are failures.
   */
  lemma SlotTells(p: Probe, t: Target)
    ensures var s := Slot(p, t);
            match p.run(t)
            case Returned(fs) => s == Result(fs, false)
            case TimedOut(fs) =>
              && !s.failed && |s.findings| == |fs| + 1 && s.findings[..|fs|] == fs
              && IsNotice(s.findings[|fs|], p.id, ".timeout", t, "info")
            case Errored(fs) =>
              && s.failed && |s.findings| == |fs| + 1 && s.findings[..|fs|] == fs
              && IsNotice(s.findings[|fs|], p.id, ".error", t, "concern")
            case Panicked =>
              && s.failed && |s.findings| == 2 && IsNotice(s.findings[0], p.id, ".panic", t, "concern")
              && IsNotice(s.findings[1], p.id, ".error", t, "concern")
  {
  }

  // ----- The goroutines of one pass -----

  datatype Phase = Running | Slotted | Done

  /** Goroutine i's phase, slot, and whether its findings reached the store; and the store, batch by batch. */
  datatype State = State(phases: seq<Phase>, slots: seq<Result>, kept: seq<bool>, store: seq<Finding>)

  datatype Step = WriteSlot(i: nat) | Persist(i: nat, ok: bool)

  const EMPTY := Result([], false)

  function Start(n: nat): State {
    State(seq(n, i => Running), seq(n, i => EMPTY), seq(n, i => false), [])
  }

  predicate Shaped(s: State, n: nat) {
    |s.phases| == n && |s.slots| == n && |s.kept| == n
  }

  predicate Enabled(s: State, e: Step) {
    e.i < |s.phases| && s.phases[e.i] == if e.WriteSlot? then Running else Slotted
  }

  /** One goroutine's next move; the store takes a batch whole or not at all, and is not asked to take an empty one. */
  function Move(ps: seq<Probe>, t: Target, s: State, e: Step): State
    requires Shaped(s, |ps|) && Enabled(s, e)
  {
    match e
    case WriteSlot(i) => s.(phases := s.phases[i := Slotted], slots := s.slots[i := Slot(ps[i], t)])
    case Persist(i, ok) =>
      s.(phases := s.phases[i := Done], kept := s.kept[i := ok || s.slots[i].findings == []],
         store := if ok then s.store + s.slots[i].findings else s.store)
  }

  /** A schedule interleaves the goroutines' moves in any way. */
  predicate Runs(ps: seq<Probe>, t: Target, s: State, es: seq<Step>)
    requires Shaped(s, |ps|)
    decreases |es|
  {
    es == [] || (Enabled(s, es[0]) && Runs(ps, t, Move(ps, t, s, es[0]), es[1..]))
  }

  function Final(ps: seq<Probe>, t: Target, s: State, es: seq<Step>): (f: State)
    requires Shaped(s, |ps|) && Runs(ps, t, s, es)
    ensures Shaped(f, |ps|)
    decreases |es|
  {
    if es == [] then s else Final(ps, t, Move(ps, t, s, es[0]), es[1..])
  }

  /** wg.Wait returns. */
  predicate Waited(s: State) {
    forall i :: 0 <= i < |s.phases| ==> s.phases[i] == Done
  }

  function Slots(ps: seq<Probe>, t: Target): seq<Result> {
    Map((p: Probe) => Slot(p, t), ps)
  }

  /** The findings of the slots marked in keep, as a multiset. */
  function Kept(rs: seq<Result>, keep: seq<bool>): multiset<Finding>
    requires |keep| == |rs|
  {
    if rs == [] then multiset{}
    else Kept(rs[..|rs| - 1], keep[..|rs| - 1]) + if keep[|rs| - 1] then multiset(rs[|rs| - 1].findings) else multiset{}
  }

  lemma {:induction false} KeepOne(rs: seq<Result>, keep: seq<bool>, i: nat)
    requires |keep| == |rs| && i < |rs| && !keep[i]
    ensures Kept(rs, keep[i := true]) == Kept(rs, keep) + multiset(rs[i].findings)
  {
    var n := |rs| - 1;
    if i < n {
      KeepOne(rs[..n], keep[..n], i);
      assert keep[i := true][..n] == keep[..n][i := true];
    } else {
      assert keep[i := true][..n] == keep[..n];
    }
  }

  /** Written slots hold their probe's result; the store holds the kept slots' findings. */
  predicate Inv(ps: seq<Probe>, t: Target, s: State) {
    && Shaped(s, |ps|)
    && (forall i :: 0 <= i < |ps| ==> s.slots[i] == if s.phases[i] == Running then EMPTY else Slot(ps[i], t))
    && (forall i :: 0 <= i < |ps| ==> s.phases[i] != Done ==> !s.kept[i])
    && multiset(s.store) == Kept(Slots(ps, t), s.kept)
  }

  lemma MoveKeeps(ps: seq<Probe>, t: Target, s: State, e: Step)
    requires Inv(ps, t, s) && Enabled(s, e)
    ensures Inv(ps, t, Move(ps, t, s, e))
  {
    hide Slot, Kept;
    var after := Move(ps, t, s, e);
    if e.Persist? && after.kept[e.i] {
      KeepOne(Slots(ps, t), s.kept, e.i);
      assert multiset(s.store + s.slots[e.i].findings) == multiset(s.store) + multiset(s.slots[e.i].findings);
    } else if e.Persist? {
      assert after.kept == s.kept;
    }
  }

  lemma ShapedByInv(ps: seq<Probe>, t: Target, s: State)
    requires Inv(ps, t, s)
    ensures Shaped(s, |ps|)
  {
  }

  lemma {:induction false} RunKeeps(ps: seq<Probe>, t: Target, s: State, es: seq<Step>)
    requires Inv(ps, t, s) && Runs(ps, t, s, es)
    ensures Inv(ps, t, Final(ps, t, s, es))
    decreases |es|
  {
    if es != [] {
      hide Inv;
      ShapedByInv(ps, t, s);
      MoveKeeps(ps, t, s, es[0]);
      RunKeeps(ps, t, Move(ps, t, s, es[0]), es[1..]);
    }
  }

  lemma {:induction false} NothingKept(rs: seq<Result>, keep: seq<bool>)
    requires |keep| == |rs| && forall i :: 0 <= i < |rs| ==> !keep[i]
    ensures Kept(rs, keep) == multiset{}
  {
    if rs != [] {
      NothingKept(rs[..|rs| - 1], keep[..|rs| - 1]);
    }
  }

  /** The results' findings, concatenated in probe order. */
  function AllFindings(rs: seq<Result>): seq<Finding> {
    if rs == [] then [] else rs[0].findings + AllFindings(rs[1..])
  }

  lemma {:induction false} AllFindingsNext(rs: seq<Result>, r: Result)
    ensures AllFindings(rs + [r]) == AllFindings(rs) + r.findings
  {
    if rs == [] {
      assert rs + [r] == [r] && AllFindings([r][1..]) == [];
    } else {
      assert (rs + [r])[1..] == rs[1..] + [r];
      AllFindingsNext(rs[1..], r);
    }
  }

  lemma {:induction false} AllKept(rs: seq<Result>, keep: seq<bool>)
    requires |keep| == |rs| && forall i :: 0 <= i < |rs| ==> keep[i]
    ensures Kept(rs, keep) == multiset(AllFindings(rs))
  {
    if rs != [] {
      var n := |rs| - 1;
      AllKept(rs[..n], keep[..n]);
      AllFindingsNext(rs[..n], rs[n]);
      assert rs == rs[..n] + [rs[n]];
    }
  }

  function HasFailed(): Result -> bool {
    (r: Result) => r.failed
  }

  /** After the wait: the loop that concatenates the slots. */
  method Collect(results: seq<Result>) returns (all: seq<Finding>, failedCount: nat)
    ensures all == AllFindings(results) && failedCount == Count(results, HasFailed())
  {
    all, failedCount := [], 0;
    for i := 0 to |results|
      invariant all == AllFindings(results[..i]) && failedCount == Count(results[..i], HasFailed())
    {
      PrefixStep(results, i);
      AllFindingsNext(results[..i], results[i]);
      CountConcat(results[..i], [results[i]], HasFailed());
      assert |[results[i]][1..]| == 0;
      if results[i].failed {
        failedCount := failedCount + 1;
      }
      all := all + results[i].findings;
    }
    assert results[..|results|] == results;
  }

  lemma StartHolds(ps: seq<Probe>, t: Target)
    ensures Inv(ps, t, Start(|ps|))
  {
    NothingKept(Slots(ps, t), Start(|ps|).kept);
  }

  /**
   * However the goroutines interleave, once the wait ends the slots are the probes' results in probe order, and the
   * store holds the findings of exactly those slots whose write succeeded: all of them if none failed.
   */
  lemma SchedulesAgree(ps: seq<Probe>, t: Target, es: seq<Step>)
    requires Runs(ps, t, Start(|ps|), es) && Waited(Final(ps, t, Start(|ps|), es))
    ensures var s := Final(ps, t, Start(|ps|), es);
            && s.slots == Slots(ps, t)
            && multiset(s.store) == Kept(Slots(ps, t), s.kept)
            && ((forall i :: 0 <= i < |ps| ==> s.kept[i]) ==> multiset(s.store) == multiset(AllFindings(s.slots)))
  {
    StartHolds(ps, t);
    RunKeeps(ps, t, Start(|ps|), es);
    var s := Final(ps, t, Start(|ps|), es);
    assert s.slots == Slots(ps, t);
    if forall i :: 0 <= i < |ps| ==> s.kept[i] {
      AllKept(s.slots, s.kept);
    }
  }

  predicate DoneIsKept(s: State)
    requires |s.kept| == |s.phases|
  {
    forall i :: 0 <= i < |s.phases| && s.phases[i] == Done ==> s.kept[i]
  }

  /** Without a failing store, no slot is left out. */
  lemma {:induction false} NoFailureKeepsAll(ps: seq<Probe>, t: Target, s: State, es: seq<Step>)
    requires Shaped(s, |ps|) && Runs(ps, t, s, es) && DoneIsKept(s)
    requires forall e :: e in es && e.Persist? ==> e.ok
    ensures DoneIsKept(Final(ps, t, s, es))
    decreases |es|
  {
    if es != [] {
      assert es[0] in es;
      assert DoneIsKept(Move(ps, t, s, es[0]));
      NoFailureKeepsAll(ps, t, Move(ps, t, s, es[0]), es[1..]);
    }
  }

  // ----- Hosts handed to the second pass -----

  /** The normalised host a finding of the first pass names, or "". */
  function HostOf(f: Finding): string {
    if f.probe == "dns.mx" || f.probe == "dns.ns" then Normal(TextAttr(f, "host"))
    else if f.probe == "http.third_party" || f.probe == "dns.subdomain" then Normal(f.subject)
    else ""
  }

  function Known(t: Target): set<string> {
    (set r | r in t.related && Normal(r) != "" :: Normal(r)) + if Normal(t.domain) != "" then {Normal(t.domain)} else {}
  }

  function Discovered(fs: seq<Finding>): set<string> {
    set f | f in fs && HostOf(f) != "" :: HostOf(f)
  }

  method SeenHosts(target: Target) returns (seen: set<string>)
    ensures seen == Known(target)
  {
    hide Normal;
    seen := if Normal(target.domain) != "" then {Normal(target.domain)} else {};
    for i := 0 to |target.related|
      invariant seen == Known(Target(target.domain, target.related[..i]))
    {
      PrefixStep(target.related, i);
      if Normal(target.related[i]) != "" {
        seen := seen + {Normal(target.related[i])};
      }
    }
    assert target.related[..|target.related|] == target.related;
  }

  /** The target with the hosts of fs it lacked. */
  ghost function Expanded(t: Target, fs: seq<Finding>): Target {
    Target(t.domain, t.related + Sorted(Discovered(fs) - Known(t)))
  }

  method ExpandRelatedFromFindings(target: Target, findings: seq<Finding>) returns (out: Target)
    ensures out == Expanded(target, findings)
  {
    hide Normal, HostOf;
    var seen := SeenHosts(target);
    var extra: set<string> := {};
    for i := 0 to |findings|
      invariant extra == Discovered(findings[..i]) - Known(target)
      invariant seen == Known(target) + extra
    {
      PrefixStep(findings, i);
      var host := HostOf(findings[i]);
      if host == "" || host in seen {
        continue;
      }
      seen := seen + {host};
      extra := extra + {host};
    }
    assert findings[..|findings|] == findings;
    if |extra| == 0 {
      assert target.related + Sorted({}) == target.related;
      return target;
    }
    var sorted := Sort(extra);
    out := Target(target.domain, target.related + sorted);
  }

  /** The hosts the second pass gains are those the first found and the target lacked, each once. */
  lemma SecondPassSeesAll(t: Target, fs: seq<Finding>)
    ensures var extra := Sorted(Discovered(fs) - Known(t));
            && (forall f :: f in fs && HostOf(f) != "" ==> HostOf(f) in Known(t) || HostOf(f) in extra)
            && (forall h :: h in extra ==> h !in Known(t) && exists f :: f in fs && HostOf(f) == h)
            && Distinct(extra)
  {
    hide HostOf;
    SortedIsDistinct(Sorted(Discovered(fs) - Known(t)));
  }

  /** Mail and name servers by their host attribute, third parties and subdomains by their subject. */
  lemma HostTells(f: Finding)
    ensures HostOf(f) ==
            if f.probe in {"dns.mx", "dns.ns"} then Normal(TextAttr(f, "host"))
            else if f.probe in {"http.third_party", "dns.subdomain"} then Normal(f.subject)
            else ""
  {
  }

  /** The second pass keeps the target's hosts and gains, in order, those that the findings name and it lacked. */
  lemma ExpandTells(t: Target, fs: seq<Finding>)
    ensures var u := Expanded(t, fs);
            && u.domain == t.domain && |t.related| <= |u.related| && u.related[..|t.related|] == t.related
            && StrictlySorted(u.related[|t.related|..])
            && forall h :: h in u.related[|t.related|..] <==>
                 && h != "" && h != Normal(t.domain) && (forall r :: r in t.related ==> Normal(r) != h)
                 && exists f :: f in fs && HostOf(f) == h
  {
    hide HostOf, Normal;
    var extra := Sorted(Discovered(fs) - Known(t));
    assert Expanded(t, fs).related[|t.related|..] == extra;
  }

  // ----- The scan -----

  datatype Status = Complete | Partial | Failed

  function IsIp(b: bool): Probe -> bool {
    (p: Probe) => (p.id == "ip") == b
  }

  method SplitPasses(probes: seq<Probe>) returns (pass1: seq<Probe>, pass2: seq<Probe>)
    ensures pass1 == Filter(probes, IsIp(false)) && pass2 == Filter(probes, IsIp(true))
    ensures |pass1| + |pass2| == |probes|
  {
    pass1, pass2 := [], [];
    for i := 0 to |probes|
      invariant pass1 == Filter(probes[..i], IsIp(false)) && pass2 == Filter(probes[..i], IsIp(true))
      invariant |pass1| + |pass2| == i
    {
      var p := probes[i];
      PrefixStep(probes, i);
      FilterConcat(probes[..i], [p], IsIp(false));
      FilterConcat(probes[..i], [p], IsIp(true));
      assert forall b :: Filter([p], IsIp(b)) == if IsIp(b)(p) then [p] else [];
      if p.id == "ip" {
        pass2 := pass2 + [p];
      } else {
        pass1 := pass1 + [p];
      }
    }
    assert probes[..|probes|] == probes;
  }

  /** Failed when no probe completed, an empty probe list included; complete when none failed; partial in between. */
  predicate IsStatus(status: Status, totalProbes: nat, failed: nat) {
    && (status == Failed <==> failed == totalProbes)
    && (status == Complete <==> failed == 0 < totalProbes)
    && (status == Partial <==> 0 < failed < totalProbes)
  }

  method FinalStatus(totalProbes: nat, failed: nat) returns (status: Status)
    requires failed <= totalProbes
    ensures IsStatus(status, totalProbes, failed)
  {
    var completed := totalProbes - failed;
    var anyCompleted, anyFailed, allFailed := completed > 0, failed > 0, completed == 0;
    status := Complete;
    if allFailed {
      status := Failed;
    } else if anyFailed {
      status := Partial;
    } else if !anyCompleted {
      status := Failed;
    }
  }

  lemma {:induction false} SlotShows(rs: seq<Result>, i: nat)
    requires i < |rs|
    ensures forall f :: f in rs[i].findings ==> f in AllFindings(rs)
  {
    if i > 0 {
      SlotShows(rs[1..], i - 1);
    }
  }

  /** Whatever a probe of either pass found is among the scan's findings. */
  lemma EveryFindingShows(ps: seq<Probe>, t: Target, i: nat, f: Finding)
    requires i < |ps|
    requires match ps[i].run(t) case Returned(fs) => f in fs case TimedOut(fs) => f in fs case Errored(fs) => f in fs
             case Panicked => false
    ensures f in AllFindings(Slots(ps, t))
  {
    SlotTells(ps[i], t);
    SlotShows(Slots(ps, t), i);
    hide AllFindings;
    var found := match ps[i].run(t) case Returned(fs) => fs case TimedOut(fs) => fs case Errored(fs) => fs
                 case Panicked => [];
    var j :| 0 <= j < |found| && found[j] == f;
    assert Slots(ps, t)[i].findings[j] == f;
  }

  function Hard(t: Target): Probe -> bool {
    (p: Probe) => p.run(t).Errored? || p.run(t).Panicked?
  }

  /** The failed count of a pass is the number of probes that returned an error or panicked; a timeout is no failure. */
  lemma {:induction false} FailedCount(ps: seq<Probe>, t: Target)
    ensures Count(Slots(ps, t), HasFailed()) == Count(ps, Hard(t))
  {
    if ps != [] {
      FailedCount(ps[1..], t);
      assert Slots(ps, t)[1..] == Slots(ps[1..], t);
    }
  }

  /** One pass can end in s, under some schedule; sound says that no store write failed. */
  ghost predicate Ends(ps: seq<Probe>, t: Target, s: State, sound: bool) {
    exists es :: Runs(ps, t, Start(|ps|), es) && Final(ps, t, Start(|ps|), es) == s && Waited(s)
                 && (sound ==> forall e: Step :: e in es && e.Persist? ==> e.ok)
  }

  /** However one pass ended. */
  lemma PassComposes(ps: seq<Probe>, t: Target, s: State, sound: bool)
    requires Ends(ps, t, s, sound)
    ensures s.slots == Slots(ps, t) && Count(s.slots, HasFailed()) == Count(ps, Hard(t))
    ensures sound ==> multiset(s.store) == multiset(AllFindings(Slots(ps, t)))
  {
    var es :| Runs(ps, t, Start(|ps|), es) && Final(ps, t, Start(|ps|), es) == s && Waited(s)
              && (sound ==> forall e: Step :: e in es && e.Persist? ==> e.ok);
    SchedulesAgree(ps, t, es);
    FailedCount(ps, t);
    if sound {
      NoFailureKeepsAll(ps, t, Start(|ps|), es);
    }
  }

  lemma {:induction false} PassSizes(probes: seq<Probe>)
    ensures |Filter(probes, IsIp(false))| + |Filter(probes, IsIp(true))| == |probes|
  {
    if probes != [] {
      PassSizes(probes[1..]);
    }
  }

  /**
   * A whole scan, under any schedules of both passes; before holds what the scan had found already. The second pass
   * runs on the target expanded with what the first found; the findings are the first pass's and then the second's, in
   * probe order; without a failing store it holds exactly those; and the status follows from the probes that erred or
   * panicked.
   */
  lemma ScanComposes(probes: seq<Probe>, t: Target, before: seq<Finding>, s1: State, s2: State, sound: bool)
    requires Ends(Filter(probes, IsIp(false)), t, s1, sound)
    requires Ends(Filter(probes, IsIp(true)), Expanded(t, before + AllFindings(s1.slots)), s2, sound)
    ensures var pass1, pass2 := Filter(probes, IsIp(false)), Filter(probes, IsIp(true));
            var enriched := Expanded(t, before + AllFindings(Slots(pass1, t)));
            var findings := AllFindings(s1.slots) + AllFindings(s2.slots);
            var failed := Count(s1.slots, HasFailed()) + Count(s2.slots, HasFailed());
            && findings == AllFindings(Slots(pass1, t)) + AllFindings(Slots(pass2, enriched))
            && (sound ==> multiset(s1.store + s2.store) == multiset(findings))
            && failed == Count(pass1, Hard(t)) + Count(pass2, Hard(enriched)) <= |pass1| + |pass2| == |probes|
  {
    var pass1, pass2 := Filter(probes, IsIp(false)), Filter(probes, IsIp(true));
    hide Ends, Expanded, Filter, IsIp, HasFailed, Hard, AllFindings;
    PassComposes(pass1, t, s1, sound);
    PassComposes(pass2, Expanded(t, before + AllFindings(s1.slots)), s2, sound);
    PassSizes(probes);
  }

  /** The end of a scan: both passes' slots collected, and the status. */
  method ConcludeScan(probes: seq<Probe>, t: Target, ghost before: seq<Finding>, s1: State, s2: State)
    returns (findings: seq<Finding>, status: Status)
    requires Ends(Filter(probes, IsIp(false)), t, s1, false)
    requires Ends(Filter(probes, IsIp(true)), Expanded(t, before + AllFindings(s1.slots)), s2, false)
    ensures var pass1, pass2 := Filter(probes, IsIp(false)), Filter(probes, IsIp(true));
            var enriched := Expanded(t, before + AllFindings(Slots(pass1, t)));
            && findings == AllFindings(Slots(pass1, t)) + AllFindings(Slots(pass2, enriched))
            && IsStatus(status, |probes|, Count(pass1, Hard(t)) + Count(pass2, Hard(enriched)))
  {
    hide Ends, Expanded, Filter, IsIp, HasFailed, Hard, AllFindings, IsStatus;
    ScanComposes(probes, t, before, s1, s2, false);
    var found1, failed1 := Collect(s1.slots);
    var found2, failed2 := Collect(s2.slots);
    findings := found1 + found2;
    status := FinalStatus(|probes|, failed1 + failed2);
  }
}
