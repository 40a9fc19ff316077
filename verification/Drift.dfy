/** What changed between two scans of a target (internal/drift/diff.go, internal/drift/rules.go). */
module Drift {
  import opened Sequences
  import opened Findings
  import Strings

  datatype Scan = Scan(id: string, findings: seq<Finding>)

  datatype Change =
    | BaselineEstablished
    | NoChanges
    | IssuerChanged(prevIssuer: string, currIssuer: string)
    | DaysLeftDropped(prevDays: int, currDays: int)
    | HostsChanged(probe: string, added: seq<string>, removed: seq<string>)
    | CountryChanged(address: string, prevCountry: string, currCountry: string)
    | ThirdPartiesAdded(hosts: seq<string>)
    | ThirdPartiesRemoved(hosts: seq<string>)

  /** What a rule says: about which subject, and what changed. */
  datatype Drifted = Drifted(subject: string, change: Change)

  /** The finding it becomes. */
  datatype Report = Report(
    probe: string, dimension: string, severity: string, subject: string,
    prevScan: Option<string>, currScan: string, change: Change)

  /** The probe name, dimension and severity of each kind of change. */
  function Kind(c: Change): (string, string, string) {
    match c
    case BaselineEstablished => ("drift.baseline_established", "", "info")
    case NoChanges => ("drift.no_changes", "", "info")
    case IssuerChanged(_, _) => ("drift.tls.issuer_changed", "juridisch", "finding")
    case DaysLeftDropped(_, _) => ("drift.tls.days_left_dropped", "operationeel", "concern")
    case HostsChanged(probe, _, _) =>
      if probe == "dns.mx" then ("drift.dns.mx_set_changed", "data_ai", "observation")
      else ("drift.dns.ns_set_changed", "operationeel", "observation")
    case CountryChanged(_, _, _) => ("drift.ip.country_changed", "juridisch", "finding")
    case ThirdPartiesAdded(_) => ("drift.http.third_party_added", "technologie", "observation")
    case ThirdPartiesRemoved(_) => ("drift.http.third_party_removed", "technologie", "info")
  }

  function Emit(prev: Option<Scan>, curr: Scan): Drifted -> Report {
    (d: Drifted) =>
      Report(Kind(d.change).0, Kind(d.change).1, Kind(d.change).2, d.subject,
             if prev.Some? then Some(prev.value.id) else None, curr.id, d.change)
  }

  // ----- Reading a scan -----

  function First(fs: seq<Finding>, probe: string): (r: Option<Finding>)
    ensures r.Some? ==> r.value in fs && r.value.probe == probe
    ensures r.None? ==> forall f :: f in fs ==> f.probe != probe
  {
    if fs == [] then None else if fs[0].probe == probe then Some(fs[0]) else First(fs[1..], probe)
  }

  function FirstSubject(fs: seq<Finding>, probe: string): string {
    match First(fs, probe) case None => "" case Some(f) => f.subject
  }

  /** The first non-empty subject. */
  function ScanSubject(fs: seq<Finding>): string {
    if fs == [] then "" else if fs[0].subject != "" then fs[0].subject else ScanSubject(fs[1..])
  }

  function IntAttr(f: Finding, key: string): Option<int> {
    if key in f.attrs && f.attrs[key].Number? then Some(f.attrs[key].number) else None
  }

  /** A finding's host: the named attribute, or for third parties its subject. */
  function HostOf(f: Finding, attr: Option<string>): string {
    match attr case None => f.subject case Some(key) => TextAttr(f, key)
  }

  function Hosts(fs: seq<Finding>, probe: string, attr: Option<string>): set<string> {
    set f | f in fs && f.probe == probe && HostOf(f, attr) != "" :: HostOf(f, attr)
  }

  /** hostsByProbe and thirdPartyHosts: sorted and without duplicates. */
  method ListHosts(scan: Scan, probe: string, attr: Option<string>) returns (hosts: seq<string>)
    ensures hosts == Strings.Sorted(Hosts(scan.findings, probe, attr))
  {
    var seen: set<string> := {};
    var fs := scan.findings;
    for i := 0 to |fs|
      invariant seen == Hosts(fs[..i], probe, attr)
    {
      PrefixStep(fs, i);
      if fs[i].probe != probe || HostOf(fs[i], attr) == "" {
        continue;
      }
      seen := seen + {HostOf(fs[i], attr)};
    }
    assert fs[..|fs|] == fs;
    hosts := Strings.Sort(seen);
  }

  function NotIn(s: seq<string>): string -> bool {
    (x: string) => x !in s
  }

  /** What is in curr and not in prev, in curr's order. */
  function Added(prev: seq<string>, curr: seq<string>): seq<string> {
    Filter(curr, NotIn(prev))
  }

  method KeepNew(prev: seq<string>, curr: seq<string>) returns (added: seq<string>)
    ensures added == Added(prev, curr)
  {
    added := [];
    for i := 0 to |curr|
      invariant added == Added(prev, curr[..i])
    {
      PrefixStep(curr, i);
      FilterConcat(curr[..i], [curr[i]], NotIn(prev));
      assert Filter([curr[i]], NotIn(prev)) == if curr[i] !in prev then [curr[i]] else [];
      if curr[i] !in prev {
        added := added + [curr[i]];
      }
    }
    assert curr[..|curr|] == curr;
  }

  method SetDiff(prev: seq<string>, curr: seq<string>) returns (added: seq<string>, removed: seq<string>)
    ensures added == Added(prev, curr) && removed == Added(curr, prev)
  {
    added := KeepNew(prev, curr);
    removed := KeepNew(curr, prev);
  }

  ghost function Elements(s: seq<string>): set<string> {
    set x | x in s
  }

  /** The old set without what was removed and with what was added is the new set, and the two parts are disjoint. */
  lemma DiffReconstructs(prev: seq<string>, curr: seq<string>)
    ensures Elements(curr) == Elements(prev) - Elements(Added(curr, prev)) + Elements(Added(prev, curr))
    ensures Elements(Added(prev, curr)) !! Elements(prev) && Elements(Added(curr, prev)) !! Elements(curr)
    ensures Added(prev, curr) == [] && Added(curr, prev) == [] <==> Elements(prev) == Elements(curr)
  {
    forall x | x in curr && x !in prev ensures x in Added(prev, curr) {
      FilterHas(curr, NotIn(prev), x);
    }
    forall x | x in prev && x !in curr ensures x in Added(curr, prev) {
      FilterHas(prev, NotIn(curr), x);
    }
    forall x | x in Added(prev, curr) ensures x in curr && x !in prev {
      assert NotIn(prev)(x);
    }
    forall x | x in Added(curr, prev) ensures x in prev && x !in curr {
      assert NotIn(curr)(x);
    }
    assert Added(prev, curr) != [] ==> Added(prev, curr)[0] in Elements(curr) - Elements(prev);
    assert Added(curr, prev) != [] ==> Added(curr, prev)[0] in Elements(prev) - Elements(curr);
  }

  // ----- Rules -----

  function TlsIssuerChanged(prev: Scan, curr: Scan): seq<Drifted> {
    var p, c := First(prev.findings, "tls.issuer"), First(curr.findings, "tls.issuer");
    if p.None? || c.None? then []
    else
      var a, b := TextAttr(p.value, "issuer_cn"), TextAttr(c.value, "issuer_cn");
      if a == "" || b == "" || a == b then [] else [Drifted(c.value.subject, IssuerChanged(a, b))]
  }

  function TlsDaysLeftDropped(prev: Scan, curr: Scan): seq<Drifted> {
    var p, c := First(prev.findings, "tls.validity"), First(curr.findings, "tls.validity");
    if p.None? || c.None? then []
    else
      var a, b := IntAttr(p.value, "days_left"), IntAttr(c.value, "days_left");
      if a.Some? && b.Some? && a.value >= 30 && b.value < 30
      then [Drifted(c.value.subject, DaysLeftDropped(a.value, b.value))] else []
  }

  ghost function HostSetChanged(prev: Scan, curr: Scan, probe: string): seq<Drifted> {
    var p, c := Strings.Sorted(Hosts(prev.findings, probe, Some("host"))),
      Strings.Sorted(Hosts(curr.findings, probe, Some("host")));
    if Added(p, c) == [] && Added(c, p) == [] then []
    else [Drifted(FirstSubject(curr.findings, probe), HostsChanged(probe, Added(p, c), Added(c, p)))]
  }

  method DnsSetChanged(prev: Scan, curr: Scan, probe: string) returns (out: seq<Drifted>)
    ensures out == HostSetChanged(prev, curr, probe)
  {
    var p := ListHosts(prev, probe, Some("host"));
    var c := ListHosts(curr, probe, Some("host"));
    if |p| == 0 && |c| == 0 {
      return [];
    }
    var added, removed := SetDiff(p, c);
    if |added| == 0 && |removed| == 0 {
      return [];
    }
    return [Drifted(FirstSubject(curr.findings, probe), HostsChanged(probe, added, removed))];
  }

  const THIRD_PARTY := "http.third_party"

  ghost function ThirdParties(prev: Scan, curr: Scan): seq<Drifted> {
    var p, c := Strings.Sorted(Hosts(prev.findings, THIRD_PARTY, None)),
      Strings.Sorted(Hosts(curr.findings, THIRD_PARTY, None));
    var subject := FirstSubject(curr.findings, "http.response");
    (if Added(p, c) != [] then [Drifted(subject, ThirdPartiesAdded(Added(p, c)))] else [])
    + if Added(c, p) != [] then [Drifted(subject, ThirdPartiesRemoved(Added(c, p)))] else []
  }

  method HttpThirdPartyChanged(prev: Scan, curr: Scan) returns (out: seq<Drifted>)
    ensures out == ThirdParties(prev, curr)
  {
    var p := ListHosts(prev, THIRD_PARTY, None);
    var c := ListHosts(curr, THIRD_PARTY, None);
    var added, removed := SetDiff(p, c);
    var subject := FirstSubject(curr.findings, "http.response");
    out := [];
    if |added| > 0 {
      out := out + [Drifted(subject, ThirdPartiesAdded(added))];
    }
    if |removed| > 0 {
      out := out + [Drifted(subject, ThirdPartiesRemoved(removed))];
    }
  }

  // ----- Countries per address -----

  predicate IsAsn(f: Finding) {
    f.probe == "ip.asn" && f.subject != ""
  }

  function Country(f: Finding): string {
    TextAttr(f, "country")
  }

  function Address(f: Finding): string {
    TextAttr(f, "address")
  }

  function AsnOf(subject: string): Finding -> bool {
    (f: Finding) => IsAsn(f) && f.subject == subject
  }

  function AsnAt(subject: string, address: string): Finding -> bool {
    (f: Finding) => IsAsn(f) && f.subject == subject && Address(f) == address
  }

  /** The country of the last finding that satisfies p. */
  function LastCountry(fs: seq<Finding>, p: Finding -> bool): Option<string> {
    if fs == [] then None
    else if p(fs[|fs| - 1]) then Some(Country(fs[|fs| - 1]))
    else LastCountry(fs[..|fs| - 1], p)
  }

  /** Both countries are known and they differ. */
  predicate Moved(before: Option<string>, after: string) {
    before.Some? && before.value != "" && after != "" && before.value != after
  }

  /** What one finding of the current scan reports. */
  function CountryReport(prev: seq<Finding>, curr: seq<Finding>, f: Finding): seq<Drifted> {
    if !IsAsn(f) then []
    else if Address(f) != "" then
      var before := LastCountry(prev, AsnAt(f.subject, Address(f)));
      if Moved(before, Country(f)) then [Drifted(f.subject, CountryChanged(Address(f), before.value, Country(f)))]
      else []
    else if Count(curr, AsnOf(f.subject)) != 1 || Count(prev, AsnOf(f.subject)) != 1 then []
    else
      var before := LastCountry(prev, AsnOf(f.subject));
      if Moved(before, Country(f)) then [Drifted(f.subject, CountryChanged("", before.value, Country(f)))] else []
  }

  function CountryReports(prev: seq<Finding>, curr: seq<Finding>, fs: seq<Finding>): seq<Drifted> {
    if fs == [] then [] else CountryReports(prev, curr, fs[..|fs| - 1]) + CountryReport(prev, curr, fs[|fs| - 1])
  }

  datatype Index = Index(byAddr: map<(string, string), string>, count: map<string, nat>, byHost: map<string, string>)

  function CountIn(m: map<string, nat>, k: string): nat {
    if k in m then m[k] else 0
  }

  ghost predicate Indexes(x: Index, fs: seq<Finding>) {
    && (forall s, a :: a != "" ==>
        LastCountry(fs, AsnAt(s, a)) == if (s, a) in x.byAddr then Some(x.byAddr[(s, a)]) else None)
    && (forall s :: LastCountry(fs, AsnOf(s)) == if s in x.byHost then Some(x.byHost[s]) else None)
    && (forall s :: Count(fs, AsnOf(s)) == CountIn(x.count, s))
    && (forall k :: k in x.byAddr ==> k.1 != "")
  }

  function Noted(x: Index, f: Finding): Index {
    if !IsAsn(f) then x
    else Index(if Address(f) != "" then x.byAddr[(f.subject, Address(f)) := Country(f)] else x.byAddr,
               x.count[f.subject := CountIn(x.count, f.subject) + 1], x.byHost[f.subject := Country(f)])
  }

  lemma LastNext(fs: seq<Finding>, f: Finding, p: Finding -> bool)
    ensures LastCountry(fs + [f], p) == if p(f) then Some(Country(f)) else LastCountry(fs, p)
  {
    assert (fs + [f])[..|fs|] == fs;
  }

  lemma CountNext(fs: seq<Finding>, f: Finding, p: Finding -> bool)
    ensures Count(fs + [f], p) == Count(fs, p) + if p(f) then 1 else 0
  {
    CountConcat(fs, [f], p);
    assert |[f][1..]| == 0;
  }

  lemma NoteIndexes(x: Index, fs: seq<Finding>, f: Finding)
    requires Indexes(x, fs)
    ensures Indexes(Noted(x, f), fs + [f])
  {
    hide LastCountry, Count, Country, Address;
    var y := Noted(x, f);
    forall s, a | a != ""
      ensures LastCountry(fs + [f], AsnAt(s, a)) == if (s, a) in y.byAddr then Some(y.byAddr[(s, a)]) else None {
      LastNext(fs, f, AsnAt(s, a));
    }
    forall s
      ensures LastCountry(fs + [f], AsnOf(s)) == if s in y.byHost then Some(y.byHost[s]) else None
      ensures Count(fs + [f], AsnOf(s)) == CountIn(y.count, s) {
      LastNext(fs, f, AsnOf(s));
      CountNext(fs, f, AsnOf(s));
    }
  }

  lemma NothingIndexed()
    ensures Indexes(Index(map[], map[], map[]), [])
  {
  }

  method IndexScan(fs: seq<Finding>) returns (x: Index)
    ensures Indexes(x, fs)
  {
    hide Indexes, Noted;
    x := Index(map[], map[], map[]);
    NothingIndexed();
    for i := 0 to |fs|
      invariant Indexes(x, fs[..i])
    {
      NoteIndexes(x, fs[..i], fs[i]);
      PrefixStep(fs, i);
      x := Noted(x, fs[i]);
    }
    assert fs[..|fs|] == fs;
  }

  /** The body of the reporting loop. */
  method CountryChange(before: Index, ghost prev: seq<Finding>, now: Index, ghost curr: seq<Finding>, f: Finding)
    returns (out: seq<Drifted>)
    requires Indexes(before, prev) && Indexes(now, curr)
    ensures out == CountryReport(prev, curr, f)
  {
    hide Country, Address, LastCountry;
    out := [];
    if f.probe != "ip.asn" || f.subject == "" {
      return;
    }
    var addr, country := Address(f), Country(f);
    if addr != "" {
      if (f.subject, addr) in before.byAddr {
        var was := before.byAddr[(f.subject, addr)];
        if was != "" && country != "" && was != country {
          out := [Drifted(f.subject, CountryChanged(addr, was, country))];
        }
      }
      return;
    }
    if CountIn(now.count, f.subject) != 1 || CountIn(before.count, f.subject) != 1 {
      return;
    }
    if f.subject in before.byHost {
      var was := before.byHost[f.subject];
      if was != "" && country != "" && was != country {
        out := [Drifted(f.subject, CountryChanged("", was, country))];
      }
    }
  }

  method IpCountryChanged(prev: Scan, curr: Scan) returns (out: seq<Drifted>)
    ensures out == CountryReports(prev.findings, curr.findings, curr.findings)
  {
    hide CountryReport, Indexes;
    var before := IndexScan(prev.findings);
    var now := IndexScan(curr.findings);
    var fs := curr.findings;
    out := [];
    for i := 0 to |fs|
      invariant out == CountryReports(prev.findings, fs, fs[..i])
    {
      assert fs[..i + 1][..i] == fs[..i];
      var one := CountryChange(before, prev.findings, now, fs, fs[i]);
      out := out + one;
    }
    assert fs[..|fs|] == fs;
  }

  // ----- Diff -----

  /** Every rule's reports, in rule order. */
  ghost function AllReports(prev: Scan, curr: Scan): seq<Drifted> {
    TlsIssuerChanged(prev, curr) + TlsDaysLeftDropped(prev, curr)
    + HostSetChanged(prev, curr, "dns.mx") + HostSetChanged(prev, curr, "dns.ns")
    + CountryReports(prev.findings, curr.findings, curr.findings) + ThirdParties(prev, curr)
  }

  /** What a comparison says: the baseline, every rule's changes, or that there are none. */
  ghost function Changes(prev: Option<Scan>, curr: Scan): (r: seq<Drifted>)
    ensures r != []
  {
    if prev.None? then [Drifted(ScanSubject(curr.findings), BaselineEstablished)]
    else if AllReports(prev.value, curr) == [] then [Drifted(ScanSubject(curr.findings), NoChanges)]
    else AllReports(prev.value, curr)
  }

  /** Empty only without a current scan. */
  method Diff(prev: Option<Scan>, curr: Option<Scan>) returns (out: seq<Report>)
    ensures curr.None? <==> out == []
    ensures curr.Some? ==> out == Map(Emit(prev, curr.value), Changes(prev, curr.value))
  {
    if curr.None? {
      return [];
    }
    if prev.None? {
      return [Emit(prev, curr.value)(Drifted(ScanSubject(curr.value.findings), BaselineEstablished))];
    }
    var found := TlsIssuerChanged(prev.value, curr.value) + TlsDaysLeftDropped(prev.value, curr.value);
    var mx := DnsSetChanged(prev.value, curr.value, "dns.mx");
    var ns := DnsSetChanged(prev.value, curr.value, "dns.ns");
    var ip := IpCountryChanged(prev.value, curr.value);
    var third := HttpThirdPartyChanged(prev.value, curr.value);
    found := found + mx + ns + ip + third;
    assert found == AllReports(prev.value, curr.value);
    if |found| == 0 {
      found := [Drifted(ScanSubject(curr.value.findings), NoChanges)];
    }
    out := Map(Emit(prev, curr.value), found);
  }

  // ----- Laws -----

  lemma {:induction false} InReports(prev: seq<Finding>, curr: seq<Finding>, fs: seq<Finding>, r: Drifted)
    ensures r in CountryReports(prev, curr, fs) <==> exists f :: f in fs && r in CountryReport(prev, curr, f)
  {
    if fs != [] {
      var rest, last := fs[..|fs| - 1], fs[|fs| - 1];
      InReports(prev, curr, rest, r);
      assert fs == rest + [last];
    }
  }

  /**
   * A country drift for an address is reported exactly when a current finding differs from the address's last known
   * country.
   */
  lemma AddressDrifts(prev: seq<Finding>, curr: seq<Finding>, subject: string, address: string)
    requires address != ""
    ensures (exists a, b :: Drifted(subject, CountryChanged(address, a, b)) in CountryReports(prev, curr, curr)) <==>
            exists f :: f in curr && AsnAt(subject, address)(f) &&
                        Moved(LastCountry(prev, AsnAt(subject, address)), Country(f))
  {
    hide LastCountry, Country;
    if a, b :| Drifted(subject, CountryChanged(address, a, b)) in CountryReports(prev, curr, curr) {
      var r := Drifted(subject, CountryChanged(address, a, b));
      InReports(prev, curr, curr, r);
      var f :| f in curr && r in CountryReport(prev, curr, f);
      assert AsnAt(subject, address)(f);
    }
    if f :| f in curr && AsnAt(subject, address)(f) && Moved(LastCountry(prev, AsnAt(subject, address)), Country(f)) {
      var r := Drifted(subject, CountryChanged(address, LastCountry(prev, AsnAt(subject, address)).value, Country(f)));
      assert r in CountryReport(prev, curr, f);
      InReports(prev, curr, curr, r);
    }
  }

  /** All findings for the address name one country. */
  predicate OneCountry(fs: seq<Finding>, p: Finding -> bool) {
    forall f, g :: f in fs && g in fs && p(f) && p(g) ==> Country(f) == Country(g)
  }

  lemma {:induction false} LastIsOneOf(fs: seq<Finding>, p: Finding -> bool)
    ensures LastCountry(fs, p).Some? <==> exists f :: f in fs && p(f)
    ensures LastCountry(fs, p).Some? ==> exists f :: f in fs && p(f) && Country(f) == LastCountry(fs, p).value
  {
    if fs != [] {
      var rest, last := fs[..|fs| - 1], fs[|fs| - 1];
      LastIsOneOf(rest, p);
      assert fs == rest + [last];
      if p(last) {
        assert last in fs;
      }
    }
  }

  /**
   * So it fires exactly when the address has different, known countries in the two scans, if the old one is
   * unambiguous.
   */
  lemma AddressDriftsBetween(prev: seq<Finding>, curr: seq<Finding>, subject: string, address: string)
    requires address != "" && OneCountry(prev, AsnAt(subject, address))
    ensures (exists a, b :: Drifted(subject, CountryChanged(address, a, b)) in CountryReports(prev, curr, curr)) <==>
            exists f, g :: f in prev && g in curr && AsnAt(subject, address)(f) && AsnAt(subject, address)(g)
                           && Moved(Some(Country(f)), Country(g))
  {
    AddressDrifts(prev, curr, subject, address);
    hide LastCountry;
    var p := AsnAt(subject, address);
    LastIsOneOf(prev, p);
    if LastCountry(prev, p).Some? {
      var f :| f in prev && p(f) && Country(f) == LastCountry(prev, p).value;
      assert forall g :: g in prev && p(g) ==> Country(g) == Country(f);
    }
  }

  /** The scan does not contradict itself about f's address: its last country is f's, or one of them is unknown. */
  predicate Settled(fs: seq<Finding>, f: Finding) {
    IsAsn(f) && Address(f) != "" ==> !Moved(LastCountry(fs, AsnAt(f.subject, Address(f))), Country(f))
  }

  /** A country report is never the no-changes report. */
  lemma {:induction false} OnlyCountries(prev: seq<Finding>, curr: seq<Finding>, fs: seq<Finding>)
    ensures forall r :: r in CountryReports(prev, curr, fs) ==> r.change.CountryChanged?
  {
    forall r | r in CountryReports(prev, curr, fs) ensures r.change.CountryChanged? {
      InReports(prev, curr, fs, r);
    }
  }

  lemma SameHosts(scan: Scan, probe: string)
    ensures HostSetChanged(scan, scan, probe) == []
  {
    var hosts := Strings.Sorted(Hosts(scan.findings, probe, Some("host")));
    FilterNone(hosts, NotIn(hosts));
  }

  lemma SameRest(scan: Scan)
    ensures ThirdParties(scan, scan) == [] && TlsIssuerChanged(scan, scan) == [] && TlsDaysLeftDropped(scan, scan) == []
  {
    var hosts := Strings.Sorted(Hosts(scan.findings, THIRD_PARTY, None));
    FilterNone(hosts, NotIn(hosts));
  }

  /** If f alone satisfies p, its country is the last one. */
  lemma {:induction false} OnlyOne(fs: seq<Finding>, p: Finding -> bool, f: Finding)
    requires f in fs && p(f) && Count(fs, p) == 1
    ensures LastCountry(fs, p) == Some(Country(f))
    decreases |fs|
  {
    var rest, last := fs[..|fs| - 1], fs[|fs| - 1];
    assert fs == rest + [last];
    CountConcat(rest, [last], p);
    assert |[last][1..]| == 0;
    if p(last) {
      CountPositive(rest, p);
    } else {
      OnlyOne(rest, p, f);
    }
  }

  lemma SelfCountries(fs: seq<Finding>)
    ensures CountryReports(fs, fs, fs) == [] <==> forall f :: f in fs ==> Settled(fs, f)
  {
    hide LastCountry, CountryReports;
    forall f | f in fs ensures CountryReport(fs, fs, f) == [] <==> Settled(fs, f) {
      if IsAsn(f) && Address(f) == "" && Count(fs, AsnOf(f.subject)) == 1 {
        OnlyOne(fs, AsnOf(f.subject), f);
      }
    }
    if CountryReports(fs, fs, fs) != [] {
      InReports(fs, fs, fs, CountryReports(fs, fs, fs)[0]);
    }
    if f :| f in fs && !Settled(fs, f) {
      InReports(fs, fs, fs, CountryReport(fs, fs, f)[0]);
    }
  }

  /** A scan against itself reports that nothing changed exactly when it does not contradict itself about an address. */
  lemma SelfDiff(scan: Scan)
    ensures Changes(Some(scan), scan) == [Drifted(ScanSubject(scan.findings), NoChanges)] <==>
            forall f :: f in scan.findings ==> Settled(scan.findings, f)
  {
    hide HostSetChanged, ThirdParties, TlsIssuerChanged, TlsDaysLeftDropped, CountryReports, Settled;
    SameHosts(scan, "dns.mx");
    SameHosts(scan, "dns.ns");
    SameRest(scan);
    SelfCountries(scan.findings);
    OnlyCountries(scan.findings, scan.findings, scan.findings);
    var rs := CountryReports(scan.findings, scan.findings, scan.findings);
    assert AllReports(scan, scan) == rs;
    assert rs != [] ==> rs[0] in rs && rs[0].change != NoChanges;
  }

  /** In particular when every address has one country. */
  lemma OneCountryIsSettled(fs: seq<Finding>)
    requires forall f :: f in fs && IsAsn(f) ==> OneCountry(fs, AsnAt(f.subject, Address(f)))
    ensures forall f :: f in fs ==> Settled(fs, f)
  {
    hide LastCountry;
    forall f | f in fs && IsAsn(f) ensures Settled(fs, f) {
      LastIsOneOf(fs, AsnAt(f.subject, Address(f)));
    }
  }
}
