/** The byte order Go uses for strings, and the sorted listing of a set of names. */
module Strings {
  predicate Less(a: string, b: string) {
    b != [] && (a == [] || a[0] < b[0] || (a[0] == b[0] && Less(a[1..], b[1..])))
  }

  lemma {:induction false} Irreflexive(a: string)
    ensures !Less(a, a)
  {
    if a != [] {
      Irreflexive(a[1..]);
    }
  }

  lemma {:induction false} Transitive(a: string, b: string, c: string)
    requires Less(a, b) && Less(b, c)
    ensures Less(a, c)
  {
    if a != [] && a[0] == b[0] == c[0] {
      Transitive(a[1..], b[1..], c[1..]);
    }
  }

  lemma {:induction false} Connected(a: string, b: string)
    ensures a == b || Less(a, b) || Less(b, a)
  {
    if a != [] && b != [] && a[0] == b[0] {
      Connected(a[1..], b[1..]);
      assert a == [a[0]] + a[1..] && b == [b[0]] + b[1..];
    }
  }

  /** A common prefix does not affect the order. */
  lemma {:induction false} CommonPrefix(p: string, a: string, b: string)
    ensures Less(p + a, p + b) == Less(a, b)
  {
    if p == [] {
      assert p + a == a && p + b == b;
    } else {
      assert (p + a)[1..] == p[1..] + a && (p + b)[1..] == p[1..] + b;
      CommonPrefix(p[1..], a, b);
    }
  }

  /** Different strings of equal length are ordered whatever follows them. */
  lemma {:induction false} EqualLength(a: string, b: string, s: string, t: string)
    requires |a| == |b| && Less(a, b)
    ensures Less(a + s, b + t)
  {
    assert (a + s)[1..] == a[1..] + s && (b + t)[1..] == b[1..] + t;
    if a[0] == b[0] {
      EqualLength(a[1..], b[1..], s, t);
    }
  }

  predicate StrictlySorted(l: seq<string>) {
    forall i, j :: 0 <= i < j < |l| ==> Less(l[i], l[j])
  }

  ghost predicate IsLeast(m: string, s: set<string>) {
    m in s && forall x :: x in s ==> x == m || Less(m, x)
  }

  lemma {:induction false} LeastExists(s: set<string>)
    requires s != {}
    ensures exists m :: IsLeast(m, s)
  {
    var x :| x in s;
    var rest := s - {x};
    if rest == {} {
      assert s == {x};
      assert IsLeast(x, s);
    } else {
      LeastExists(rest);
      var m :| IsLeast(m, rest);
      Connected(x, m);
      if Less(m, x) {
        assert IsLeast(m, s);
      } else {
        forall y | y in s ensures y == x || Less(x, y) {
          if y != x && y != m {
            Transitive(x, m, y);
          }
        }
        assert IsLeast(x, s);
      }
    }
  }

  ghost function Least(s: set<string>): (m: string)
    requires s != {}
    ensures IsLeast(m, s)
  {
    LeastExists(s);
    var m :| IsLeast(m, s);
    m
  }

  /** The elements of s in increasing order. */
  ghost function Sorted(s: set<string>): (l: seq<string>)
    ensures forall x :: x in l <==> x in s
    ensures StrictlySorted(l)
    decreases s
  {
    if s == {} then []
    else
      var m := Least(s);
      [m] + Sorted(s - {m})
  }

  lemma Asymmetric(a: string, b: string)
    ensures !(Less(a, b) && Less(b, a))
  {
    if Less(a, b) && Less(b, a) {
      Transitive(a, b, a);
      Irreflexive(a);
    }
  }

  lemma SortedIsDistinct(l: seq<string>)
    requires StrictlySorted(l)
    ensures forall i, j :: 0 <= i < j < |l| ==> l[i] != l[j]
  {
    forall i, j | 0 <= i < j < |l| ensures l[i] != l[j] {
      Irreflexive(l[i]);
    }
  }

  /** There is only one strictly increasing listing of a set. */
  lemma {:induction false} SortedUnique(a: seq<string>, b: seq<string>)
    requires StrictlySorted(a) && StrictlySorted(b)
    requires forall x :: x in a <==> x in b
    ensures a == b
  {
    assert a != [] ==> a[0] in b;
    assert b != [] ==> b[0] in a;
    if a != [] {
      Asymmetric(a[0], b[0]);
      SortedIsDistinct(a);
      SortedIsDistinct(b);
      assert forall x :: x in a[1..] <==> x in a && x != a[0];
      assert forall x :: x in b[1..] <==> x in b && x != b[0];
      SortedUnique(a[1..], b[1..]);
    }
  }

  method PickLeast(s: set<string>) returns (m: string)
    requires s != {}
    ensures m in s && m == Least(s)
  {
    LeastExists(s);
    m :| m in s && forall x | x in s :: x == m || Less(m, x);
    Asymmetric(m, Least(s));
  }

  lemma SortedStep(l: seq<string>, s: set<string>)
    requires s != {}
    ensures l + Sorted(s) == l + [Least(s)] + Sorted(s - {Least(s)})
  {
    var m, rest := Least(s), Sorted(s - {Least(s)});
    assert Sorted(s) == [m] + rest;
    hide *;
    assert l + ([m] + rest) == l + [m] + rest;
  }

  lemma NothingSorted(l: seq<string>)
    ensures l + Sorted({}) == l
  {
  }

  /** sort.Strings over distinct names. */
  method Sort(s: set<string>) returns (l: seq<string>)
    ensures l == Sorted(s)
  {
    hide Less, Sorted, IsLeast;
    l := [];
    var rest := s;
    while rest != {}
      invariant Sorted(s) == l + Sorted(rest)
      decreases rest
    {
      var m := PickLeast(rest);
      SortedStep(l, rest);
      l := l + [m];
      rest := rest - {m};
    }
    NothingSorted(l);
  }

  // ----- Text helpers, on ASCII -----

  function Lower(s: string): (r: string)
    ensures |r| == |s|
    ensures forall i :: 0 <= i < |s| ==> r[i] == if 'A' <= s[i] <= 'Z' then s[i] + 32 as char else s[i]
  {
    if s == "" then "" else [if 'A' <= s[0] <= 'Z' then s[0] + 32 as char else s[0]] + Lower(s[1..])
  }

  predicate IsSpace(c: char) {
    c in " \t\n\r" || c == 11 as char || c == 12 as char
  }

  function TrimSpace(s: string): string
    decreases |s|
  {
    if s != "" && IsSpace(s[0]) then TrimSpace(s[1..])
    else if s != "" && IsSpace(s[|s| - 1]) then TrimSpace(s[..|s| - 1])
    else s
  }

  function TrimDot(s: string): string {
    if s != "" && s[|s| - 1] == '.' then s[..|s| - 1] else s
  }

  /** How the source normalises a host name before comparing it. */
  function Normal(name: string): string {
    Lower(TrimDot(TrimSpace(name)))
  }
}
