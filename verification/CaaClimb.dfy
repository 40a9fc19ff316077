/** The CAA tree climb of RFC 8659, section 3 (internal/probe/dns/dns.go, internal/domainutil/domainutil.go). */
module CaaClimb {
  import opened Sequences
  import opened Strings
  import CaaWire

  type Answer = CaaWire.Result<seq<CaaWire.Caa>>

  datatype Found = Failed(error: CaaWire.Error) | Nothing | At(origin: string, records: seq<CaaWire.Caa>)

  // ----- Names -----

  /** The last two labels of a name as written; empty if there is only one. */
  function LastTwo(name: string): string {
    var labels := Split(name, '.');
    if |labels| < 2 then "" else labels[|labels| - 2] + "." + labels[|labels| - 1]
  }

  function Registrable(name: string): string {
    LastTwo(Normal(name))
  }

  function Parent(name: string): (p: string)
    requires '.' in name
    ensures |p| < |name|
  {
    name[IndexOf(name, '.') + 1..]
  }

  // ----- The climb -----

  /** The names a climb may visit: name itself, then each ancestor, stopping at stop. */
  function Path(name: string, stop: string): (p: seq<string>)
    ensures p != [] && p[0] == name
    decreases |name|
  {
    [name] + if name == stop || '.' !in name then [] else Path(Parent(name), stop)
  }

  /** Asking k names of path, all but the last of them empty, gave out. */
  predicate Climbed(resolve: string -> Answer, path: seq<string>, k: nat, out: Found) {
    && 1 <= k <= |path|
    && (forall i :: 0 <= i < k - 1 ==> resolve(path[i]) == CaaWire.Ok([]))
    && match out
       case Failed(e) => resolve(path[k - 1]) == CaaWire.Err(e)
       case At(origin, records) => origin == path[k - 1] && records != [] && resolve(origin) == CaaWire.Ok(records)
       case Nothing => k == |path| && resolve(path[k - 1]) == CaaWire.Ok([])
  }

  lemma PathStarts(name: string, stop: string)
    ensures [] + Path(name, stop) == Path(name, stop)
  {
  }

  lemma Regroup(a: seq<string>, x: string, b: seq<string>)
    ensures a + ([x] + b) == a + [x] + b && a + [x] <= a + ([x] + b)
  {
  }

  lemma Step(asked: seq<string>, name: string, stop: string, path: seq<string>)
    requires asked + Path(name, stop) == path
    ensures |asked| < |path| && path[|asked|] == name && asked + [name] <= path
    ensures if name == stop || '.' !in name then path == asked + [name]
            else path == asked + [name] + Path(Parent(name), stop)
  {
    var rest := if name == stop || '.' !in name then [] else Path(Parent(name), stop);
    assert Path(name, stop) == [name] + rest;
    Regroup(asked, name, rest);
  }

  /** asked lists the names queried, in order: a prefix of the path from domain towards its registrable domain. */
  method LookupCAAChain(resolve: string -> Answer, domain: string) returns (out: Found, asked: seq<string>)
    ensures asked <= Path(domain, Registrable(domain))
    ensures Climbed(resolve, Path(domain, Registrable(domain)), |asked|, out)
  {
    hide Registrable, Path, Parent;
    PathStarts(domain, Registrable(domain));
    var name := domain;
    var registrable := Registrable(name);
    ghost var path := Path(domain, registrable);
    asked := [];
    while true
      invariant asked + Path(name, registrable) == path
      invariant forall i :: 0 <= i < |asked| ==> resolve(path[i]) == CaaWire.Ok([])
      decreases |name|
    {
      var answer := resolve(name);
      Step(asked, name, registrable, path);
      asked := asked + [name];
      if answer.Err? {
        return Failed(answer.error), asked;
      }
      if answer.value != [] {
        return At(name, answer.value), asked;
      }
      if name == registrable || '.' !in name {
        return Nothing, asked;
      }
      name := Parent(name);
    }
  }

  lemma FirstLabel(name: string)
    requires '.' in name
    ensures exists l :: Split(name, '.') == [l] + Split(Parent(name), '.') && name == l + "." + Parent(name)
    ensures if '.' in Parent(name) then |Split(Parent(name), '.')| >= 2 else Split(Parent(name), '.') == [Parent(name)]
  {
    var i := IndexOf(name, '.');
    assert Split(name, '.') == [name[..i]] + Split(Parent(name), '.');
    assert name == name[..i] + "." + Parent(name);
  }

  lemma LastTwoClimbs(name: string)
    requires '.' in name
    ensures if '.' in Parent(name) then LastTwo(name) == LastTwo(Parent(name)) else LastTwo(name) == name
    ensures '.' in LastTwo(name)
  {
    hide Split, Parent;
    FirstLabel(name);
    var labels := Split(name, '.');
    var a, b := labels[|labels| - 2], labels[|labels| - 1];
    assert LastTwo(name) == a + "." + b && (a + "." + b)[|a|] == '.';
  }

  predicate Suffix(name: string, n: string) {
    |n| <= |name| && name[|name| - |n|..] == n
  }

  lemma SelfSuffix(name: string)
    ensures Suffix(name, name)
  {
  }

  lemma ParentSuffix(name: string, n: string)
    requires '.' in name && Suffix(Parent(name), n)
    ensures Suffix(name, n)
  {
    assert Suffix(name, Parent(name));
  }

  /** Every name on path is an ancestor of name, or name, and of two labels or more. */
  predicate Within(path: seq<string>, name: string) {
    forall n :: n in path ==> '.' in n && Suffix(name, n)
  }

  /** The climb towards a name's own last two labels visits only its ancestors of two labels or more, and ends there. */
  lemma {:induction false} OwnPath(name: string)
    requires '.' in name
    ensures var p := Path(name, LastTwo(name)); p[|p| - 1] == LastTwo(name) && Within(p, name)
    decreases |name|
  {
    hide LastTwo, Suffix;
    LastTwoClimbs(name);
    SelfSuffix(name);
    if name != LastTwo(name) {
      OwnPath(Parent(name));
      forall n | n in Path(Parent(name), LastTwo(name)) ensures Suffix(name, n) {
        ParentSuffix(name, n);
      }
    }
  }

  /** A name is normal when normalising leaves it alone: lower case, no trailing dot, no outer spaces. */
  predicate IsNormal(name: string) {
    Normal(name) == name
  }

  /** RFC 8659: from a normalised name the climb ends at the registrable domain and never leaves it. */
  lemma NormalPath(name: string)
    requires IsNormal(name)
    ensures var p := Path(name, Registrable(name));
            if '.' in name then p[|p| - 1] == Registrable(name) && Within(p, name) else p == [name]
  {
    hide Normal, Split;
    if '.' in name {
      OwnPath(name);
    }
  }

  /** Towards any other stop the climb runs on past the last dot. */
  lemma {:induction false} PathLeaves(name: string, stop: string)
    requires '.' in name && LastTwo(name) != stop && (stop == "" || LastTwo(stop) == stop)
    ensures exists n :: n in Path(name, stop) && '.' !in n
    decreases |name|
  {
    LastTwoClimbs(name);
    if '.' in Parent(name) {
      PathLeaves(Parent(name), stop);
    } else {
      assert Parent(name) in Path(name, stop);
    }
  }

  lemma {:induction false} LastTwoIsTwo(name: string)
    ensures LastTwo(name) == "" || LastTwo(LastTwo(name)) == LastTwo(name)
    decreases |name|
  {
    if '.' in name {
      LastTwoClimbs(name);
      if '.' in Parent(name) {
        LastTwoIsTwo(Parent(name));
      }
    }
  }

  /**
   * The climb stays below the top level exactly when the domain's last two labels, as written, are its registrable
   * domain.
   */
  lemma StaysWithin(domain: string)
    requires '.' in domain
    ensures (forall n :: n in Path(domain, Registrable(domain)) ==> '.' in n) <==>
            LastTwo(domain) == Registrable(domain)
  {
    if LastTwo(domain) == Registrable(domain) {
      OwnPath(domain);
    } else {
      LastTwoIsTwo(Normal(domain));
      PathLeaves(domain, Registrable(domain));
    }
  }

  lemma Untrimmed(s: string)
    requires s != "" && !IsSpace(s[0]) && !IsSpace(s[|s| - 1])
    ensures TrimSpace(s) == s
  {
  }

  lemma LowerExamples()
    ensures Lower("A.NL") == "a.nl" == Lower("a.nl")
  {
    var l, m := Lower("A.NL"), Lower("a.nl");
    assert l == ['a', '.', 'n', 'l'] == m;
  }

  lemma NormalExamples()
    ensures Normal("A.NL") == "a.nl" == Normal("a.nl.")
  {
    hide Lower, TrimSpace;
    LowerExamples();
    assert TrimSpace("A.NL") == "A.NL" && TrimSpace("a.nl.") == "a.nl." by { Untrimmed("A.NL"); Untrimmed("a.nl."); }
    assert TrimDot("a.nl.") == "a.nl";
  }

  lemma ParentIs(name: string, first: string, rest: string)
    requires '.' !in first && name == first + "." + rest
    ensures '.' in name && Parent(name) == rest
  {
    IndexOfAfter(first, '.', rest);
  }

  lemma Examples()
    ensures Registrable("A.NL") == "a.nl" == Registrable("a.nl.")
  {
    hide LastTwo, Normal;
    NormalExamples();
    ParentIs("a.nl", "a", "nl");
    LastTwoClimbs("a.nl");
  }

  lemma NextLabel(name: string, first: string, rest: string, stop: string)
    requires '.' !in first && name == first + "." + rest && name != stop
    ensures rest in Path(name, stop)
  {
    ParentIs(name, first, rest);
  }

  /** An upper-case or rooted name fails that: both climbs go on to ask for the top-level domain. */
  lemma UnnormalisedLeaves()
    ensures "NL" in Path("A.NL", Registrable("A.NL"))
    ensures "nl." in Path("a.nl.", Registrable("a.nl."))
  {
    hide Registrable, Path;
    Examples();
    NextLabel("A.NL", "A", "NL", Registrable("A.NL"));
    NextLabel("a.nl.", "a", "nl.", Registrable("a.nl."));
  }
}
