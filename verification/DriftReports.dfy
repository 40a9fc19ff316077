/** What a comparison reports, told of the two scans' findings (internal/drift/rules.go, internal/drift/diff.go). */
module DriftReports {
  import opened Sequences
  import opened Findings
  import opened Drift
  import Strings

  // ----- What a scan says -----

  /** fs[i] is the first finding of probe. */
  predicate IsFirst(fs: seq<Finding>, probe: string, i: int) {
    0 <= i < |fs| && fs[i].probe == probe && forall j :: 0 <= j < i ==> fs[j].probe != probe
  }

  lemma {:induction false} FirstIs(fs: seq<Finding>, probe: string, i: int)
    requires IsFirst(fs, probe, i)
    ensures First(fs, probe) == Some(fs[i])
  {
    if i > 0 {
      assert fs[0].probe != probe;
      forall j | 0 <= j < i - 1 ensures fs[1..][j].probe != probe {
        assert fs[1..][j] == fs[j + 1];
      }
      FirstIs(fs[1..], probe, i - 1);
    }
  }

  lemma {:induction false} SomeIsFirst(fs: seq<Finding>, probe: string) returns (i: nat)
    requires exists f :: f in fs && f.probe == probe
    ensures IsFirst(fs, probe, i)
  {
    if fs[0].probe == probe {
      i := 0;
    } else {
      i := SomeIsFirst(fs[1..], probe);
      i := i + 1;
      assert forall j :: 0 < j <= i ==> fs[j] == fs[1..][j - 1];
    }
  }

  /** A finding of probe names host h. */
  predicate NamesHost(s: Scan, probe: string, h: string) {
    h != "" && exists f :: f in s.findings && f.probe == probe && TextAttr(f, "host") == h
  }

  /** A third-party finding is about host h. */
  predicate HasThirdParty(s: Scan, h: string) {
    h != "" && exists f :: f in s.findings && f.probe == "http.third_party" && f.subject == h
  }

  // ----- Hosts -----

  /** hosts lists, in order, what is new among the hosts of two scans. */
  ghost predicate ListsNew(hosts: seq<string>, before: set<string>, after: set<string>) {
    Strings.StrictlySorted(hosts) && forall h :: h in hosts <==> h in after && h !in before
  }

  lemma {:induction false} FilterSorted(l: seq<string>, p: string -> bool)
    requires Strings.StrictlySorted(l)
    ensures Strings.StrictlySorted(Filter(l, p))
  {
    if l != [] {
      var rest := Filter(l[1..], p);
      assert forall i, j :: 0 <= i < j < |l[1..]| ==> l[1..][i] == l[i + 1] && l[1..][j] == l[j + 1];
      FilterSorted(l[1..], p);
      forall i | 0 <= i < |rest| ensures Strings.Less(l[0], rest[i]) {
        assert rest[i] in l[1..];
        var k :| 0 <= k < |l[1..]| && l[1..][k] == rest[i];
        assert l[k + 1] == rest[i];
      }
    }
  }

  lemma AddedListsNew(before: set<string>, after: set<string>)
    ensures ListsNew(Added(Strings.Sorted(before), Strings.Sorted(after)), before, after)
  {
    var p, c := Strings.Sorted(before), Strings.Sorted(after);
    var added := Added(p, c);
    FilterSorted(c, NotIn(p));
    forall h ensures h in added <==> h in after && h !in before {
      if h in c && h !in p {
        FilterHas(c, NotIn(p), h);
      }
      if h in added {
        var i :| 0 <= i < |added| && added[i] == h;
        assert added[i] in c && NotIn(p)(added[i]);
      }
    }
  }

  /** The hosts of s at probe, as the rule reads them. */
  lemma HostsNamed(s: Scan, probe: string)
    ensures forall h :: h in Hosts(s.findings, probe, Some("host")) <==> NamesHost(s, probe, h)
    ensures forall h :: h in Hosts(s.findings, "http.third_party", None) <==> HasThirdParty(s, h)
  {
  }

  lemma NothingNew(hosts: seq<string>, before: set<string>, after: set<string>)
    requires ListsNew(hosts, before, after)
    ensures hosts == [] <==> after <= before
  {
    hide Strings.StrictlySorted;
    assert hosts != [] ==> hosts[0] in hosts;
  }

  /** What one report of a changed host set says: which hosts only the new scan names, and which only the old one. */
  ghost predicate TellsHosts(c: Change, prev: Scan, curr: Scan, probe: string) {
    && c.HostsChanged? && c.probe == probe
    && Strings.StrictlySorted(c.added) && Strings.StrictlySorted(c.removed)
    && (forall h :: h in c.added <==> NamesHost(curr, probe, h) && !NamesHost(prev, probe, h))
    && (forall h :: h in c.removed <==> NamesHost(prev, probe, h) && !NamesHost(curr, probe, h))
  }

  /** One report, about the first finding's subject, exactly if the two scans name different hosts. */
  lemma HostSetTells(prev: Scan, curr: Scan, probe: string)
    ensures var rs := HostSetChanged(prev, curr, probe);
            && |rs| <= 1
            && (rs == [] <==> forall h :: NamesHost(prev, probe, h) <==> NamesHost(curr, probe, h))
            && (forall r :: r in rs ==>
                TellsHosts(r.change, prev, curr, probe) && r.subject == FirstSubject(curr.findings, probe))
  {
    var before, after := Hosts(prev.findings, probe, Some("host")), Hosts(curr.findings, probe, Some("host"));
    var p, c := Strings.Sorted(before), Strings.Sorted(after);
    HostsNamed(prev, probe);
    HostsNamed(curr, probe);
    hide NamesHost, HasThirdParty, Hosts, Strings.StrictlySorted, Added, Strings.Sorted, FirstSubject;
    AddedListsNew(before, after);
    AddedListsNew(after, before);
    NothingNew(Added(p, c), before, after);
    NothingNew(Added(c, p), after, before);
    assert (forall h :: NamesHost(prev, probe, h) <==> NamesHost(curr, probe, h)) <==> before == after;
  }

  /** hosts are those that curr has as third parties and prev has not. */
  ghost predicate TellsThirdParties(hosts: seq<string>, prev: Scan, curr: Scan) {
    && Strings.StrictlySorted(hosts)
    && forall h :: h in hosts <==> HasThirdParty(curr, h) && !HasThirdParty(prev, h)
  }

  lemma NewThirdParties(prev: Scan, curr: Scan)
    ensures var before, after := Hosts(prev.findings, THIRD_PARTY, None), Hosts(curr.findings, THIRD_PARTY, None);
            TellsThirdParties(Added(Strings.Sorted(before), Strings.Sorted(after)), prev, curr)
  {
    HostsNamed(prev, "");
    HostsNamed(curr, "");
    hide HasThirdParty, NamesHost, Hosts, Strings.StrictlySorted, Added, Strings.Sorted;
    AddedListsNew(Hosts(prev.findings, THIRD_PARTY, None), Hosts(curr.findings, THIRD_PARTY, None));
  }

  /** Additions and removals of third parties are reported apart, in this order, each exactly if there are any. */
  lemma ThirdPartiesTell(prev: Scan, curr: Scan)
    ensures exists added, removed ::
              && TellsThirdParties(added, prev, curr) && TellsThirdParties(removed, curr, prev)
              && var subject := FirstSubject(curr.findings, "http.response");
                 ThirdParties(prev, curr) ==
                 (if added != [] then [Drifted(subject, ThirdPartiesAdded(added))] else [])
                 + if removed != [] then [Drifted(subject, ThirdPartiesRemoved(removed))] else []
  {
    var before, after := Hosts(prev.findings, THIRD_PARTY, None), Hosts(curr.findings, THIRD_PARTY, None);
    NewThirdParties(prev, curr);
    NewThirdParties(curr, prev);
    hide TellsThirdParties, Hosts, Added, Strings.Sorted;
    var added, removed := Added(Strings.Sorted(before), Strings.Sorted(after)),
      Added(Strings.Sorted(after), Strings.Sorted(before));
    assert TellsThirdParties(added, prev, curr) && TellsThirdParties(removed, curr, prev);
  }

  // ----- Certificates -----

  /** v is what get reads from the first finding of probe. */
  ghost predicate FirstSays<T>(s: Scan, probe: string, get: Finding -> T, v: T) {
    exists i :: IsFirst(s.findings, probe, i) && get(s.findings[i]) == v
  }

  function Issuer(): Finding -> string {
    (f: Finding) => TextAttr(f, "issuer_cn")
  }

  function DaysLeft(): Finding -> Option<int> {
    (f: Finding) => IntAttr(f, "days_left")
  }

  lemma {:induction false} FirstSaysIff<T>(s: Scan, probe: string, get: Finding -> T)
    ensures forall v :: FirstSays(s, probe, get, v) <==>
                        First(s.findings, probe).Some? && get(First(s.findings, probe).value) == v
  {
    var fs := s.findings;
    forall v | FirstSays(s, probe, get, v) ensures First(fs, probe).Some? && get(First(fs, probe).value) == v {
      var i :| IsFirst(fs, probe, i) && get(fs[i]) == v;
      FirstIs(fs, probe, i);
    }
    if First(fs, probe).Some? {
      var i := SomeIsFirst(fs, probe);
      FirstIs(fs, probe, i);
    }
  }

  /** The first tls.issuer findings name different issuers, a and b. */
  ghost predicate IssuerMoved(prev: Scan, curr: Scan, a: string, b: string) {
    && a != "" && b != "" && a != b
    && FirstSays(prev, "tls.issuer", Issuer(), a) && FirstSays(curr, "tls.issuer", Issuer(), b)
  }

  /** The days left of the first tls.validity findings fell below thirty, from a to b. */
  ghost predicate DaysFell(prev: Scan, curr: Scan, a: int, b: int) {
    && b < 30 <= a
    && FirstSays(prev, "tls.validity", DaysLeft(), Some(a)) && FirstSays(curr, "tls.validity", DaysLeft(), Some(b))
  }

  lemma IssuerTells(prev: Scan, curr: Scan)
    ensures var rs := TlsIssuerChanged(prev, curr);
            && |rs| <= 1 && (rs != [] <==> exists a, b :: IssuerMoved(prev, curr, a, b))
            && forall r :: r in rs ==>
                 && r.change.IssuerChanged? && IssuerMoved(prev, curr, r.change.prevIssuer, r.change.currIssuer)
                 && r.subject == FirstSubject(curr.findings, "tls.issuer")
  {
    FirstSaysIff(prev, "tls.issuer", Issuer());
    FirstSaysIff(curr, "tls.issuer", Issuer());
    hide FirstSays, First, TextAttr;
    var rs := TlsIssuerChanged(prev, curr);
    assert rs != [] ==> IssuerMoved(prev, curr, rs[0].change.prevIssuer, rs[0].change.currIssuer);
  }

  lemma DaysTell(prev: Scan, curr: Scan)
    ensures var rs := TlsDaysLeftDropped(prev, curr);
            && |rs| <= 1 && (rs != [] <==> exists a, b :: DaysFell(prev, curr, a, b))
            && forall r :: r in rs ==>
                 && r.change.DaysLeftDropped? && DaysFell(prev, curr, r.change.prevDays, r.change.currDays)
                 && r.subject == FirstSubject(curr.findings, "tls.validity")
  {
    FirstSaysIff(prev, "tls.validity", DaysLeft());
    FirstSaysIff(curr, "tls.validity", DaysLeft());
    hide FirstSays, First, IntAttr;
    var rs := TlsDaysLeftDropped(prev, curr);
    assert rs != [] ==> DaysFell(prev, curr, rs[0].change.prevDays, rs[0].change.currDays);
  }

  // ----- Countries -----

  /** a is the country of the last finding of s that satisfies p. */
  ghost predicate LastSays(s: Scan, p: Finding -> bool, a: string) {
    exists i :: 0 <= i < |s.findings| && p(s.findings[i]) && TextAttr(s.findings[i], "country") == a
                && forall j :: i < j < |s.findings| ==> !p(s.findings[j])
  }

  lemma LastOneSays(fs: seq<Finding>, p: Finding -> bool, a: string)
    requires fs != [] && p(fs[|fs| - 1]) && LastSays(Scan("", fs), p, a)
    ensures TextAttr(fs[|fs| - 1], "country") == a
  {
    hide TextAttr;
  }

  lemma LastSaysNext(fs: seq<Finding>, x: Finding, p: Finding -> bool, a: string)
    ensures LastSays(Scan("", fs + [x]), p, a) <==>
            if p(x) then TextAttr(x, "country") == a else LastSays(Scan("", fs), p, a)
  {
    var gs := fs + [x];
    assert forall j :: 0 <= j < |fs| ==> gs[j] == fs[j];
    assert gs[|fs|] == x;
    if p(x) {
      assert TextAttr(x, "country") == a ==> p(gs[|fs|]) && TextAttr(gs[|fs|], "country") == a;
      if LastSays(Scan("", gs), p, a) {
        LastOneSays(gs, p, a);
      }
    } else {
      if LastSays(Scan("", fs), p, a) {
        var i :| 0 <= i < |fs| && p(fs[i]) && TextAttr(fs[i], "country") == a && forall j :: i < j < |fs| ==> !p(fs[j]);
        assert p(gs[i]) && TextAttr(gs[i], "country") == a;
      }
      if LastSays(Scan("", gs), p, a) {
        var i :| 0 <= i < |gs| && p(gs[i]) && TextAttr(gs[i], "country") == a && forall j :: i < j < |gs| ==> !p(gs[j]);
        assert p(fs[i]) && TextAttr(fs[i], "country") == a;
      }
    }
  }

  lemma {:induction false} LastSaysIff(fs: seq<Finding>, p: Finding -> bool, a: string)
    ensures LastCountry(fs, p) == Some(a) <==> LastSays(Scan("", fs), p, a)
  {
    if fs != [] {
      var rest, last := fs[..|fs| - 1], fs[|fs| - 1];
      assert fs == rest + [last];
      LastSaysNext(rest, last, p, a);
      hide LastSays;
      LastSaysIff(rest, p, a);
    }
  }

  /** An ip.asn finding of a host, at an address if one is given. */
  function AsnFor(subject: string, address: string): Finding -> bool {
    (f: Finding) => f.probe == "ip.asn" && f.subject != "" && f.subject == subject
                    && (address != "" ==> TextAttr(f, "address") == address)
  }

  /**
   * A finding of the new scan has country b where the old scan last had a, both known: at the same address, or for a
   * finding without an address when each scan has just one for the host.
   */
  ghost predicate CountryMoved(prev: Scan, curr: Scan, subject: string, address: string, a: string, b: string) {
    && a != "" && b != "" && a != b && LastSays(prev, AsnFor(subject, address), a)
    && (exists f :: f in curr.findings && AsnFor(subject, "")(f)
                    && TextAttr(f, "address") == address && TextAttr(f, "country") == b)
    && (address == "" ==> Count(prev.findings, AsnFor(subject, "")) == 1 == Count(curr.findings, AsnFor(subject, "")))
  }

  lemma {:induction false} LastAgrees(fs: seq<Finding>, p: Finding -> bool, q: Finding -> bool)
    requires forall f :: f in fs ==> p(f) == q(f)
    ensures LastCountry(fs, p) == LastCountry(fs, q)
  {
    if fs != [] {
      assert fs[|fs| - 1] in fs;
      LastAgrees(fs[..|fs| - 1], p, q);
    }
  }

  /** The rule's own ways of picking findings. */
  lemma SamePicks(fs: seq<Finding>, subject: string, address: string)
    ensures subject != "" ==> Count(fs, AsnOf(subject)) == Count(fs, AsnFor(subject, ""))
    ensures subject != "" ==> LastCountry(fs, AsnOf(subject)) == LastCountry(fs, AsnFor(subject, ""))
    ensures subject != "" && address != "" ==>
              LastCountry(fs, AsnAt(subject, address)) == LastCountry(fs, AsnFor(subject, address))
  {
    if subject != "" {
      LastAgrees(fs, AsnOf(subject), AsnFor(subject, ""));
      CountAgree(fs, AsnOf(subject), AsnFor(subject, ""));
      if address != "" {
        LastAgrees(fs, AsnAt(subject, address), AsnFor(subject, address));
      }
    }
  }

  /** What one finding of the new scan reports. */
  lemma CountryTold(prev: Scan, curr: Scan, f: Finding, subject: string, address: string, a: string, b: string)
    requires f in curr.findings
    ensures Drifted(subject, CountryChanged(address, a, b)) in CountryReport(prev.findings, curr.findings, f) <==>
            && a != "" && b != "" && a != b && LastSays(prev, AsnFor(subject, address), a)
            && AsnFor(subject, "")(f) && TextAttr(f, "address") == address && TextAttr(f, "country") == b
            && (address == "" ==>
                Count(prev.findings, AsnFor(subject, "")) == 1 == Count(curr.findings, AsnFor(subject, "")))
  {
    if IsAsn(f) && f.subject == subject && Address(f) == address {
      SamePicks(prev.findings, subject, address);
      SamePicks(curr.findings, subject, address);
      LastSaysIff(prev.findings, AsnFor(subject, address), a);
      assert LastSays(Scan("", prev.findings), AsnFor(subject, address), a) <==>
             LastSays(prev, AsnFor(subject, address), a);
    }
    hide LastSays, LastCountry;
  }

  /** A country drift is reported exactly if the country moved. */
  lemma CountriesTell(prev: Scan, curr: Scan, subject: string, address: string, a: string, b: string)
    ensures Drifted(subject, CountryChanged(address, a, b))
              in CountryReports(prev.findings, curr.findings, curr.findings) <==>
            CountryMoved(prev, curr, subject, address, a, b)
  {
    var r := Drifted(subject, CountryChanged(address, a, b));
    InReports(prev.findings, curr.findings, curr.findings, r);
    forall f | f in curr.findings
      ensures r in CountryReport(prev.findings, curr.findings, f) <==>
              && a != "" && b != "" && a != b && LastSays(prev, AsnFor(subject, address), a)
              && AsnFor(subject, "")(f) && TextAttr(f, "address") == address && TextAttr(f, "country") == b
              && (address == "" ==>
                  Count(prev.findings, AsnFor(subject, "")) == 1 == Count(curr.findings, AsnFor(subject, "")))
    {
      CountryTold(prev, curr, f, subject, address, a, b);
    }
    hide CountryReport, LastSays, AsnFor, Count;
  }

  // ----- The whole comparison -----

  /** d is a change between the two scans. */
  ghost predicate Changed(prev: Scan, curr: Scan, d: Drifted) {
    match d.change
    case IssuerChanged(a, b) =>
      IssuerMoved(prev, curr, a, b) && d.subject == FirstSubject(curr.findings, "tls.issuer")
    case DaysLeftDropped(a, b) =>
      DaysFell(prev, curr, a, b) && d.subject == FirstSubject(curr.findings, "tls.validity")
    case HostsChanged(probe, added, removed) =>
      && (probe == "dns.mx" || probe == "dns.ns") && TellsHosts(d.change, prev, curr, probe)
      && (added != [] || removed != []) && d.subject == FirstSubject(curr.findings, probe)
    case CountryChanged(address, a, b) => CountryMoved(prev, curr, d.subject, address, a, b)
    case ThirdPartiesAdded(hosts) =>
      hosts != [] && TellsThirdParties(hosts, prev, curr) && d.subject == FirstSubject(curr.findings, "http.response")
    case ThirdPartiesRemoved(hosts) =>
      hosts != [] && TellsThirdParties(hosts, curr, prev) && d.subject == FirstSubject(curr.findings, "http.response")
    case _ => false
  }

  lemma TellsOneWay(c: Change, e: Change, prev: Scan, curr: Scan, probe: string)
    requires TellsHosts(c, prev, curr, probe) && TellsHosts(e, prev, curr, probe)
    ensures c == e
  {
    hide NamesHost;
    Strings.SortedUnique(c.added, e.added);
    Strings.SortedUnique(c.removed, e.removed);
  }

  lemma ThirdPartiesOneWay(a: seq<string>, b: seq<string>, prev: Scan, curr: Scan)
    requires TellsThirdParties(a, prev, curr) && TellsThirdParties(b, prev, curr)
    ensures a == b
  {
    hide HasThirdParty;
    Strings.SortedUnique(a, b);
  }

  lemma HostsReported(prev: Scan, curr: Scan, probe: string, d: Drifted)
    ensures d in HostSetChanged(prev, curr, probe) <==>
            TellsHosts(d.change, prev, curr, probe) && (d.change.added != [] || d.change.removed != [])
            && d.subject == FirstSubject(curr.findings, probe)
  {
    HostSetTells(prev, curr, probe);
    var rs := HostSetChanged(prev, curr, probe);
    if TellsHosts(d.change, prev, curr, probe) && (d.change.added != [] || d.change.removed != []) {
      hide HostSetChanged, Strings.StrictlySorted;
      var h := if d.change.added != [] then d.change.added[0] else d.change.removed[0];
      assert NamesHost(prev, probe, h) != NamesHost(curr, probe, h) by {
        assert d.change.added != [] ==> h in d.change.added;
        assert d.change.added == [] ==> h in d.change.removed;
      }
      assert rs != [] && rs[0] in rs;
      TellsOneWay(rs[0].change, d.change, prev, curr, probe);
    }
  }

  lemma PartedReported(added: seq<string>, removed: seq<string>, subject: string, d: Drifted)
    ensures d in (if added != [] then [Drifted(subject, ThirdPartiesAdded(added))] else [])
                 + (if removed != [] then [Drifted(subject, ThirdPartiesRemoved(removed))] else []) <==>
            d.subject == subject &&
            ((d.change.ThirdPartiesAdded? && d.change.hosts == added != []) ||
             (d.change.ThirdPartiesRemoved? && d.change.hosts == removed != []))
  {
  }

  lemma ThirdPartiesReported(prev: Scan, curr: Scan, d: Drifted)
    ensures d in ThirdParties(prev, curr) <==>
            (d.change.ThirdPartiesAdded? || d.change.ThirdPartiesRemoved?) && Changed(prev, curr, d)
  {
    ThirdPartiesTell(prev, curr);
    hide ThirdParties, TellsThirdParties, FirstSubject;
    var subject := FirstSubject(curr.findings, "http.response");
    var added, removed :| TellsThirdParties(added, prev, curr) && TellsThirdParties(removed, curr, prev)
      && ThirdParties(prev, curr) == (if added != [] then [Drifted(subject, ThirdPartiesAdded(added))] else [])
                                     + if removed != [] then [Drifted(subject, ThirdPartiesRemoved(removed))] else [];
    PartedReported(added, removed, subject, d);
    if d.change.ThirdPartiesAdded? && TellsThirdParties(d.change.hosts, prev, curr) {
      ThirdPartiesOneWay(added, d.change.hosts, prev, curr);
    }
    if d.change.ThirdPartiesRemoved? && TellsThirdParties(d.change.hosts, curr, prev) {
      ThirdPartiesOneWay(removed, d.change.hosts, curr, prev);
    }
  }

  lemma IssuersReported(prev: Scan, curr: Scan, d: Drifted)
    ensures d in TlsIssuerChanged(prev, curr) <==> d.change.IssuerChanged? && Changed(prev, curr, d)
  {
    IssuerTells(prev, curr);
    FirstSaysIff(prev, "tls.issuer", Issuer());
    FirstSaysIff(curr, "tls.issuer", Issuer());
    hide FirstSays, TlsIssuerChanged;
    var rs := TlsIssuerChanged(prev, curr);
    if d.change.IssuerChanged? && Changed(prev, curr, d) {
      assert rs != [] && rs[0] in rs && rs == [rs[0]];
    }
  }

  lemma DaysReported(prev: Scan, curr: Scan, d: Drifted)
    ensures d in TlsDaysLeftDropped(prev, curr) <==> d.change.DaysLeftDropped? && Changed(prev, curr, d)
  {
    DaysTell(prev, curr);
    FirstSaysIff(prev, "tls.validity", DaysLeft());
    FirstSaysIff(curr, "tls.validity", DaysLeft());
    hide FirstSays, TlsDaysLeftDropped;
    var rs := TlsDaysLeftDropped(prev, curr);
    if d.change.DaysLeftDropped? && Changed(prev, curr, d) {
      assert rs != [] && rs[0] in rs && rs == [rs[0]];
    }
  }

  lemma InAllReports(prev: Scan, curr: Scan, d: Drifted)
    ensures d in AllReports(prev, curr) <==>
            || d in TlsIssuerChanged(prev, curr) || d in TlsDaysLeftDropped(prev, curr)
            || d in HostSetChanged(prev, curr, "dns.mx") || d in HostSetChanged(prev, curr, "dns.ns")
            || d in CountryReports(prev.findings, curr.findings, curr.findings) || d in ThirdParties(prev, curr)
  {
    hide TlsIssuerChanged, TlsDaysLeftDropped, HostSetChanged, CountryReports, ThirdParties;
  }

  lemma HostChangesReported(prev: Scan, curr: Scan, d: Drifted)
    ensures d in HostSetChanged(prev, curr, "dns.mx") || d in HostSetChanged(prev, curr, "dns.ns") <==>
            d.change.HostsChanged? && Changed(prev, curr, d)
  {
    HostsReported(prev, curr, "dns.mx", d);
    HostsReported(prev, curr, "dns.ns", d);
    hide HostSetChanged, NamesHost, Strings.StrictlySorted, FirstSubject;
  }

  lemma CountryChangesReported(prev: Scan, curr: Scan, d: Drifted)
    ensures d in CountryReports(prev.findings, curr.findings, curr.findings) <==>
            d.change.CountryChanged? && Changed(prev, curr, d)
  {
    OnlyCountries(prev.findings, curr.findings, curr.findings);
    hide CountryReports, CountryMoved;
    if d.change.CountryChanged? {
      CountriesTell(prev, curr, d.subject, d.change.address, d.change.prevCountry, d.change.currCountry);
    }
  }

  lemma ChangedKinds(prev: Scan, curr: Scan, d: Drifted)
    requires Changed(prev, curr, d)
    ensures || d.change.IssuerChanged? || d.change.DaysLeftDropped? || d.change.HostsChanged?
            || d.change.CountryChanged? || d.change.ThirdPartiesAdded? || d.change.ThirdPartiesRemoved?
  {
  }

  /** The rules together report exactly the changes between the two scans. */
  lemma ReportsTell(prev: Scan, curr: Scan, d: Drifted)
    ensures d in AllReports(prev, curr) <==> Changed(prev, curr, d)
  {
    hide AllReports, Changed, TlsIssuerChanged, TlsDaysLeftDropped, HostSetChanged, CountryReports, ThirdParties;
    InAllReports(prev, curr, d);
    IssuersReported(prev, curr, d);
    DaysReported(prev, curr, d);
    HostChangesReported(prev, curr, d);
    CountryChangesReported(prev, curr, d);
    ThirdPartiesReported(prev, curr, d);
    if Changed(prev, curr, d) {
      ChangedKinds(prev, curr, d);
    }
  }

  lemma NoReports(prev: Scan, curr: Scan)
    ensures AllReports(prev, curr) == [] <==> forall e :: !Changed(prev, curr, e)
  {
    hide AllReports, Changed;
    var rs := AllReports(prev, curr);
    forall e ensures e in rs <==> Changed(prev, curr, e) {
      ReportsTell(prev, curr, e);
    }
    assert rs != [] ==> rs[0] in rs;
  }

  /** A comparison says what changed, or that nothing did; without an old scan it says that there is a baseline now. */
  lemma ChangesTell(prev: Option<Scan>, curr: Scan, d: Drifted)
    ensures d in Changes(prev, curr) <==>
            match prev
            case None => d == Drifted(ScanSubject(curr.findings), BaselineEstablished)
            case Some(p) =>
              Changed(p, curr, d) ||
              (d == Drifted(ScanSubject(curr.findings), NoChanges) && forall e :: !Changed(p, curr, e))
  {
    hide AllReports, Changed, ScanSubject;
    if prev.Some? {
      NoReports(prev.value, curr);
      ReportsTell(prev.value, curr, d);
    }
  }

  /** The finding a change becomes: both scans, and the probe, dimension and severity of its kind. */
  lemma EmitTells(prev: Option<Scan>, curr: Scan, d: Drifted)
    ensures var r := Emit(prev, curr)(d);
            && r.subject == d.subject && r.change == d.change && r.currScan == curr.id
            && r.prevScan == (match prev case None => None case Some(p) => Some(p.id))
            && (r.probe == "drift.tls.issuer_changed" <==> d.change.IssuerChanged?)
            && (r.probe == "drift.tls.days_left_dropped" <==> d.change.DaysLeftDropped?)
            && (r.probe == "drift.ip.country_changed" <==> d.change.CountryChanged?)
            && (r.probe == "drift.http.third_party_added" <==> d.change.ThirdPartiesAdded?)
            && (r.probe == "drift.http.third_party_removed" <==> d.change.ThirdPartiesRemoved?)
            && (r.probe == "drift.dns.mx_set_changed" <==> d.change.HostsChanged? && d.change.probe == "dns.mx")
            && (r.probe == "drift.dns.ns_set_changed" <==> d.change.HostsChanged? && d.change.probe != "dns.mx")
            && (r.severity == "concern" <==> d.change.DaysLeftDropped?)
            && (r.severity == "finding" <==> d.change.IssuerChanged? || d.change.CountryChanged?)
            && (r.severity == "observation" <==> d.change.HostsChanged? || d.change.ThirdPartiesAdded?)
            && (r.severity == "info" <==>
                d.change.BaselineEstablished? || d.change.NoChanges? || d.change.ThirdPartiesRemoved?)
            && (r.dimension == "juridisch" <==> d.change.IssuerChanged? || d.change.CountryChanged?)
            && (r.dimension == "technologie" <==> d.change.ThirdPartiesAdded? || d.change.ThirdPartiesRemoved?)
            && (r.dimension == "data_ai" <==> d.change.HostsChanged? && d.change.probe == "dns.mx")
            && (r.dimension == "operationeel" <==>
                d.change.DaysLeftDropped? || (d.change.HostsChanged? && d.change.probe != "dns.mx"))
  {
  }
}
