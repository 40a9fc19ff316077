/** Interrupted imports among the complete imports of other files, and imports that carry only mail. */
module ImportTraffic {
  import opened Sequences
  import opened Findings
  import opened ImportCorrelation
  import opened Imports
  import opened ImportTheorems

  /**
   * While a file is being imported: an attempt that may fail anywhere, a complete import of another file, or neither.
   */
  datatype Traffic = Try(calls: nat) | OtherFile(hash: string, es: seq<Entry>) | Plain(e: Event)

  predicate Proper(x: Traffic, hash: string) {
    match x
    case Try(_) => true
    case OtherFile(h, es) => h != hash && AllAccepted(es)
    case Plain(e) => !e.Attempt?
  }

  function Pass(t: Tables, hash: string, es: seq<Entry>, x: Traffic): Tables {
    match x
    case Try(calls) => Run(t, hash, es, calls).0
    case OtherFile(h, fs) => Run(t, h, fs, 6 * |Domains(fs)|).0
    case Plain(e) => Happen(t, hash, es, e)
  }

  function PassAll(t: Tables, hash: string, es: seq<Entry>, xs: seq<Traffic>): Tables
    decreases |xs|
  {
    if xs == [] then t else PassAll(Pass(t, hash, es, xs[0]), hash, es, xs[1..])
  }

  predicate IsOthers(x: Traffic) {
    !x.Try?
  }

  /** a and b have the same findings of the types g does not carry. */
  predicate AgreeOff(g: seq<Finding>, a: seq<Finding>, b: seq<Finding>) {
    Filter(a, (f: Finding) => Uncovered(g, f)) == Filter(b, (f: Finding) => Uncovered(g, f))
  }

  lemma AgreeOffOver(g: seq<Finding>, a: seq<Finding>)
    ensures AgreeOff(g, Over(g, a), a)
  {
    var p := (f: Finding) => Uncovered(g, f);
    CoversItself(g);
    FilterConcat(g, Filter(a, p), p);
    FilterNone(g, p);
    FilterAll(Filter(a, p), p);
  }

  lemma OverFiltered(h: seq<Finding>, a: seq<Finding>, p: Finding -> bool)
    ensures Filter(Over(h, a), p) == Filter(h, p) + Filter(Filter(a, p), (f: Finding) => Uncovered(h, f))
  {
    var q := (f: Finding) => Uncovered(h, f);
    var both := (f: Finding) => p(f) && q(f);
    FilterConcat(h, Filter(a, q), p);
    FilterTwice(a, q, p, both);
    FilterTwice(a, p, q, both);
  }

  lemma OverAgrees(g: seq<Finding>, h: seq<Finding>, a: seq<Finding>, b: seq<Finding>)
    requires AgreeOff(g, a, b)
    ensures AgreeOff(g, Over(h, a), Over(h, b))
  {
    OverFiltered(h, a, (f: Finding) => Uncovered(g, f));
    OverFiltered(h, b, (f: Finding) => Uncovered(g, f));
  }

  lemma NothingCovered(a: seq<Finding>, b: seq<Finding>)
    requires AgreeOff([], a, b)
    ensures a == b
  {
    FilterAll(a, (f: Finding) => Uncovered([], f));
    FilterAll(b, (f: Finding) => Uncovered([], f));
  }

  lemma {:induction false} NoFindingsFor(es: seq<Entry>, d: string)
    requires d !in Domains(es)
    ensures FindingsFor(es, d) == []
  {
    NoFindingsBefore(es, d);
  }

  /** A run leaves the records of other files alone. */
  lemma {:induction false} OtherRecordsStay(t: Tables, hash: string, es: seq<Entry>, ds: seq<string>, calls: nat,
                                            y: Tally, h: string, d: string)
    requires h != hash
    ensures (h, d) in ImportAll(t, hash, es, ds, calls, y).0.imports <==> (h, d) in t.imports
    decreases |ds|
  {
    hide ImportDomain, FindingsFor;
    if ds != [] && !y.failed {
      var (m, v, left) := ImportDomain(t, hash, ds[0], FindingsFor(es, ds[0]), calls);
      VerdictMeans(t, hash, ds[0], FindingsFor(es, ds[0]), calls);
      OtherRecordsStay(m, hash, es, ds[1..], left, Tallied(y, v), h, d);
    }
  }

  /** What every attempt, failed or not, does to one domain. */
  lemma AttemptEffect(t: Tables, hash: string, es: seq<Entry>, calls: nat, d: string)
    requires WellFormed(t) && d in t.targets
    ensures var u := Run(t, hash, es, calls).0;
            && WellFormed(u) && u.targets == t.targets && u.nextTarget == t.nextTarget
            && (View(u, d) == View(t, d) || View(u, d) == Over(FindingsFor(es, d), View(t, d)))
            && ((hash, d) in t.imports ==> (hash, d) in u.imports)
  {
    var zero := Tally(0, 0, 0, false);
    RunShape(t, hash, es, Domains(es), calls, zero);
    if d in Domains(es) {
      RunEffect(t, hash, es, Domains(es), calls, zero, d);
    } else {
      RunSparesOthers(t, hash, es, Domains(es), calls, zero, d);
    }
  }

  /** The halves of domain d when dirty saw attempts that clean did not, as long as none of them recorded d. */
  predicate AlikeOn(dirty: Tables, clean: Tables, hash: string, es: seq<Entry>, d: string)
    requires d in clean.targets && dirty.targets == clean.targets
  {
    (hash, d) !in dirty.imports ==>
      (hash, d) !in clean.imports && AgreeOff(FindingsFor(es, d), View(dirty, d), View(clean, d))
  }

  ghost predicate Alike(dirty: Tables, clean: Tables, hash: string, es: seq<Entry>) {
    && WellFormed(dirty) && WellFormed(clean)
    && dirty.targets == clean.targets && dirty.nextTarget == clean.nextTarget
    && (forall h, d :: h != hash ==> ((h, d) in dirty.imports <==> (h, d) in clean.imports))
    && forall d :: d in clean.targets ==> AlikeOn(dirty, clean, hash, es, d)
  }

  lemma TryKeepsAlike(dirty: Tables, clean: Tables, hash: string, es: seq<Entry>, calls: nat)
    requires Alike(dirty, clean, hash, es)
    ensures Alike(Pass(dirty, hash, es, Try(calls)), clean, hash, es)
  {
    hide WellFormed, Latest;
    var u := Run(dirty, hash, es, calls).0;
    RunShape(dirty, hash, es, Domains(es), calls, Tally(0, 0, 0, false));
    forall h, d | h != hash ensures (h, d) in u.imports <==> (h, d) in clean.imports {
      OtherRecordsStay(dirty, hash, es, Domains(es), calls, Tally(0, 0, 0, false), h, d);
    }
    forall d | d in clean.targets ensures AlikeOn(u, clean, hash, es, d) {
      assert AlikeOn(dirty, clean, hash, es, d);
      AttemptEffect(dirty, hash, es, calls, d);
      AgreeOffOver(FindingsFor(es, d), View(dirty, d));
    }
  }

  lemma UnknownStayUnrecorded(t: Tables, hash: string, es: seq<Entry>, calls: nat, d: string)
    requires WellFormed(t) && d !in t.targets
    ensures (hash, d) !in t.imports && (hash, d) !in Run(t, hash, es, calls).0.imports
  {
    RunShape(t, hash, es, Domains(es), calls, Tally(0, 0, 0, false));
    var u := Run(t, hash, es, calls).0;
    assert forall p :: p in u.imports ==> p.1 in u.targets;
    assert forall p :: p in t.imports ==> p.1 in t.targets;
  }

  /** The records after a complete import depend on the records and targets before it. */
  lemma RecordsAfter(t: Tables, hash: string, es: seq<Entry>, h: string, d: string)
    requires WellFormed(t) && AllAccepted(es)
    ensures (h, d) in Run(t, hash, es, 6 * |Domains(es)|).0.imports <==>
            (h, d) in t.imports || (h == hash && d in t.targets && d in Domains(es))
  {
    var calls, zero := 6 * |Domains(es)|, Tally(0, 0, 0, false);
    if h != hash {
      OtherRecordsStay(t, hash, es, Domains(es), calls, zero, h, d);
    } else if d in t.targets {
      CompleteRun(t, hash, es, calls, d);
    } else {
      UnknownStayUnrecorded(t, hash, es, calls, d);
    }
  }

  lemma OtherKeepsAlikeOn(dirty: Tables, clean: Tables, hash: string, es: seq<Entry>, x: Traffic, d: string)
    requires Alike(dirty, clean, hash, es) && x.OtherFile? && Proper(x, hash) && d in clean.targets
    ensures var u, v := Pass(dirty, hash, es, x), Pass(clean, hash, es, x);
            u.targets == dirty.targets && v.targets == clean.targets && AlikeOn(u, v, hash, es, d)
  {
    hide WellFormed, Latest;
    var calls := 6 * |Domains(x.es)|;
    CompleteRun(dirty, x.hash, x.es, calls, d);
    CompleteRun(clean, x.hash, x.es, calls, d);
    OtherRecordsStay(dirty, x.hash, x.es, Domains(x.es), calls, Tally(0, 0, 0, false), hash, d);
    OtherRecordsStay(clean, x.hash, x.es, Domains(x.es), calls, Tally(0, 0, 0, false), hash, d);
    assert AlikeOn(dirty, clean, hash, es, d);
    if (hash, d) !in dirty.imports {
      OverAgrees(FindingsFor(es, d), FindingsFor(x.es, d), View(dirty, d), View(clean, d));
    }
  }

  lemma OtherKeepsAlike(dirty: Tables, clean: Tables, hash: string, es: seq<Entry>, x: Traffic)
    requires Alike(dirty, clean, hash, es) && x.OtherFile? && Proper(x, hash)
    ensures Alike(Pass(dirty, hash, es, x), Pass(clean, hash, es, x), hash, es)
  {
    hide WellFormed, Latest;
    var calls, zero := 6 * |Domains(x.es)|, Tally(0, 0, 0, false);
    var u, v := Pass(dirty, hash, es, x), Pass(clean, hash, es, x);
    RunShape(dirty, x.hash, x.es, Domains(x.es), calls, zero);
    RunShape(clean, x.hash, x.es, Domains(x.es), calls, zero);
    forall h, d | h != hash ensures (h, d) in u.imports <==> (h, d) in v.imports {
      RecordsAfter(dirty, x.hash, x.es, h, d);
      RecordsAfter(clean, x.hash, x.es, h, d);
    }
    forall d | d in v.targets ensures AlikeOn(u, v, hash, es, d) {
      OtherKeepsAlikeOn(dirty, clean, hash, es, x, d);
    }
  }

  lemma PlainKeepsAlike(dirty: Tables, clean: Tables, hash: string, es: seq<Entry>, x: Traffic)
    requires Alike(dirty, clean, hash, es) && x.Plain? && Proper(x, hash)
    ensures Alike(Pass(dirty, hash, es, x), Pass(clean, hash, es, x), hash, es)
  {
    EventKeepsViews(dirty, hash, es, x.e);
    EventKeepsViews(clean, hash, es, x.e);
    hide WellFormed, Latest, Happen;
    var u, v := Pass(dirty, hash, es, x), Pass(clean, hash, es, x);
    forall d | d in v.targets ensures AlikeOn(u, v, hash, es, d) {
      assert d in clean.targets ==> AlikeOn(dirty, clean, hash, es, d);
    }
  }

  lemma {:induction false} TrafficKeepsAlike(dirty: Tables, clean: Tables, hash: string, es: seq<Entry>,
                                             xs: seq<Traffic>)
    requires Alike(dirty, clean, hash, es) && forall x :: x in xs ==> Proper(x, hash)
    ensures Alike(PassAll(dirty, hash, es, xs), PassAll(clean, hash, es, Filter(xs, IsOthers)), hash, es)
    decreases |xs|
  {
    hide Alike, Pass;
    if xs != [] {
      var x, rest := xs[0], Filter(xs[1..], IsOthers);
      if x.Try? {
        TryKeepsAlike(dirty, clean, hash, es, x.calls);
        TrafficKeepsAlike(Pass(dirty, hash, es, x), clean, hash, es, xs[1..]);
        assert Filter(xs, IsOthers) == rest;
      } else {
        if x.OtherFile? {
          OtherKeepsAlike(dirty, clean, hash, es, x);
        } else {
          PlainKeepsAlike(dirty, clean, hash, es, x);
        }
        TrafficKeepsAlike(Pass(dirty, hash, es, x), Pass(clean, hash, es, x), hash, es, xs[1..]);
        assert Filter(xs, IsOthers) == [x] + rest && ([x] + rest)[1..] == rest;
      }
    }
  }

  lemma AlikeItself(t: Tables, hash: string, es: seq<Entry>)
    requires WellFormed(t)
    ensures Alike(t, t, hash, es)
  {
  }

  /**
   * With complete imports of other files in between as well: if no attempt got as far as recording d, one complete run
   * leaves the import half of d as if the attempts had never been made.
   */
  lemma OrphansAreErased(t: Tables, hash: string, es: seq<Entry>, xs: seq<Traffic>, calls: nat, cleanCalls: nat,
                         d: string)
    requires WellFormed(t) && AllAccepted(es) && forall x :: x in xs ==> Proper(x, hash)
    requires Enough(calls, Domains(es)) && Enough(cleanCalls, Domains(es))
    requires d in PassAll(t, hash, es, xs).targets && (hash, d) !in PassAll(t, hash, es, xs).imports
    ensures var dirty := Run(PassAll(t, hash, es, xs), hash, es, calls).0;
            var clean := Run(PassAll(t, hash, es, Filter(xs, IsOthers)), hash, es, cleanCalls).0;
            && d in dirty.targets && d in clean.targets && View(dirty, d) == View(clean, d)
            && ((hash, d) in dirty.imports <==> (hash, d) in clean.imports)
  {
    hide WellFormed, Latest, Run;
    AlikeItself(t, hash, es);
    TrafficKeepsAlike(t, t, hash, es, xs);
    var dirty, clean := PassAll(t, hash, es, xs), PassAll(t, hash, es, Filter(xs, IsOthers));
    assert AlikeOn(dirty, clean, hash, es, d);
    CompleteRun(dirty, hash, es, calls, d);
    CompleteRun(clean, hash, es, cleanCalls, d);
    if d !in Domains(es) {
      NoFindingsFor(es, d);
      NothingCovered(View(dirty, d), View(clean, d));
    }
  }

  // ----- Mail only -----

  predicate IsWeb(f: Finding) {
    TypeOf(f) == "web"
  }

  predicate OnlyMail(es: seq<Entry>, d: string) {
    forall e :: e in es && e.domain == d ==> e.typ == "mail"
  }

  lemma {:induction false} MailFindings(es: seq<Entry>, d: string)
    requires OnlyMail(es, d)
    ensures forall i :: 0 <= i < |FindingsFor(es, d)| ==> TypeOf(FindingsFor(es, d)[i]) == "mail"
  {
    if es != [] {
      assert es[0] in es;
      MailFindings(es[1..], d);
    }
  }

  /** An import, complete or not, of a file that has only mail for d leaves the web half of d unchanged. */
  lemma MailRunKeepsWeb(t: Tables, hash: string, es: seq<Entry>, calls: nat, d: string)
    requires WellFormed(t) && d in t.targets && OnlyMail(es, d)
    ensures var u := Run(t, hash, es, calls).0;
            d in u.targets && Filter(View(u, d), IsWeb) == Filter(View(t, d), IsWeb)
  {
    hide WellFormed, Latest;
    AttemptEffect(t, hash, es, calls, d);
    MailFindings(es, d);
    MailImportKeepsWeb(FindingsFor(es, d), View(t, d));
    var web := (f: Finding) => TypeOf(f) == "web";
    FilterAgree(View(t, d), IsWeb, web);
    FilterAgree(View(Run(t, hash, es, calls).0, d), IsWeb, web);
  }
}
