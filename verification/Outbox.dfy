/** The agent's on-disk spool of undelivered batches (internal/agent/outbox.go). */
module Outbox {
  import opened Sequences
  import opened Findings
  import opened Strings
  import opened Timestamps
  import opened BatchStore
  import opened Wire

  /** content is None for bytes that do not decode, such as a half-written file. */
  datatype File = File(content: Option<Parcel>, size: nat)

  type Disk = map<string, File>

  const DEFAULT_MAX_BYTES := 104857600

  function Limit(maxBytes: int): (limit: nat)
    ensures limit > 0
    ensures maxBytes > 0 ==> limit == maxBytes
    ensures maxBytes <= 0 ==> limit == 100 * 1024 * 1024
  {
    if maxBytes <= 0 then DEFAULT_MAX_BYTES else maxBytes
  }

  predicate IsBatchFile(name: string) {
    |name| >= 5 && name[|name| - 5..] == ".json"
  }

  function TmpName(name: string): string {
    name + ".tmp"
  }

  function CorruptName(name: string): string {
    name + ".corrupt"
  }

  /** The names listBatchFiles returns: only .json files, in name order. */
  ghost function Listing(d: Disk): (l: seq<string>)
    ensures forall n :: n in l <==> n in d && IsBatchFile(n)
    ensures StrictlySorted(l)
  {
    Sorted(set n | n in d && IsBatchFile(n))
  }

  /** Neither a half-written file nor one set aside is ever listed; a spooled one is. */
  lemma SideFilesAreNotListed(name: string, t: Civil, suffix: string)
    ensures !IsBatchFile(TmpName(name)) && !IsBatchFile(CorruptName(name))
    ensures IsBatchFile(FileName(t, suffix))
  {
    var tmp, corrupt, file := TmpName(name), CorruptName(name), FileName(t, suffix);
    assert tmp[|tmp| - 1] == 'p' && corrupt[|corrupt| - 1] == 't';
    assert |tmp| >= 5 ==> tmp[|tmp| - 5..][4] == 'p';
    assert |corrupt| >= 5 ==> corrupt[|corrupt| - 5..][4] == 't';
    assert file == (Timestamps.Stamp(t) + "_" + suffix) + ".json";
  }

  lemma ListingEquals(d: Disk, l: seq<string>)
    requires StrictlySorted(l) && forall n :: n in l <==> n in d && IsBatchFile(n)
    ensures Listing(d) == l
  {
    SortedUnique(Listing(d), l);
  }

  /** The combined size of the listed files. */
  function Total(d: Disk, l: seq<string>): nat
    requires forall n :: n in l ==> n in d
  {
    if l == [] then 0 else d[l[0]].size + Total(d, l[1..])
  }

  function NameSet(l: seq<string>): set<string> {
    set n | n in l
  }

  /**
   * What fails while pruning: listing the directory, the size of a file in the counting or in the removing loop, or its
   * removal.
   */
  datatype PruneIo = PruneIo(listable: bool, uncounted: set<string>, unsized: set<string>, stuck: set<string>)

  /** Nothing fails for a name of s. */
  predicate Smooth(io: PruneIo, s: set<string>) {
    io.listable && io.uncounted !! s && io.unsized !! s && io.stuck !! s
  }

  /** The counting loop: a file whose size cannot be read is passed over. */
  function Counted(d: Disk, l: seq<string>, io: PruneIo): nat
    requires forall n :: n in l ==> n in d
  {
    if l == [] then 0 else (if l[0] in io.uncounted then 0 else d[l[0]].size) + Counted(d, l[1..], io)
  }

  /** The removing loop: the disk afterwards, and whether no removal failed. */
  function Remove(d: Disk, l: seq<string>, total: int, limit: nat, io: PruneIo): (Disk, bool)
    requires forall n :: n in l ==> n in d
    requires Distinct(l)
    decreases |l|
  {
    if l == [] || total <= limit then (d, true)
    else if l[0] in io.unsized then Remove(d, l[1..], total, limit, io)
    else if l[0] in io.stuck then (d, false)
    else Remove(d - {l[0]}, l[1..], total - d[l[0]].size, limit, io)
  }

  lemma ListingIsDistinct(d: Disk)
    ensures Distinct(Listing(d))
  {
    SortedIsDistinct(Listing(d));
  }

  ghost function Pruned(d: Disk, limit: nat, io: PruneIo): (Disk, bool) {
    ListingIsDistinct(d);
    if !io.listable then (d, false)
    else Remove(d, Listing(d), Counted(d, Listing(d), io), limit, io)
  }

  /** How many of the oldest files must go before the rest fit. */
  function PrunePoint(d: Disk, l: seq<string>, limit: nat): (k: nat)
    requires forall n :: n in l ==> n in d
    ensures k <= |l|
  {
    if Total(d, l) <= limit then 0 else 1 + PrunePoint(d, l[1..], limit)
  }

  lemma {:induction false} TotalAgrees(d: Disk, e: Disk, l: seq<string>)
    requires forall n :: n in l ==> n in d && n in e && d[n] == e[n]
    ensures Total(d, l) == Total(e, l)
  {
    if l != [] {
      TotalAgrees(d, e, l[1..]);
    }
  }

  lemma {:induction false} PrunePointAgrees(d: Disk, e: Disk, l: seq<string>, limit: nat)
    requires forall n :: n in l ==> n in d && n in e && d[n] == e[n]
    ensures PrunePoint(d, l, limit) == PrunePoint(e, l, limit)
  {
    TotalAgrees(d, e, l);
    if l != [] {
      PrunePointAgrees(d, e, l[1..], limit);
    }
  }

  lemma {:induction false} RemovesPrefix(d: Disk, l: seq<string>, limit: nat, io: PruneIo)
    requires forall n :: n in l ==> n in d
    requires Distinct(l) && Smooth(io, NameSet(l))
    ensures Remove(d, l, Total(d, l), limit, io) == (d - NameSet(l[..PrunePoint(d, l, limit)]), true)
    decreases |l|
  {
    if Total(d, l) > limit {
      var e := d - {l[0]};
      assert l[0] in NameSet(l) && NameSet(l[1..]) <= NameSet(l);
      TotalAgrees(d, e, l[1..]);
      RemovesPrefix(e, l[1..], limit, io);
      PrunePointAgrees(d, e, l[1..], limit);
      var k := PrunePoint(d, l[1..], limit);
      assert l[..k + 1] == [l[0]] + l[1..][..k];
      assert e - NameSet(l[1..][..k]) == d - NameSet(l[..k + 1]);
    } else {
      assert d - NameSet(l[..0]) == d;
    }
  }

  lemma {:induction false} CountsAll(d: Disk, l: seq<string>, io: PruneIo)
    requires forall n :: n in l ==> n in d
    requires io.uncounted !! NameSet(l)
    ensures Counted(d, l, io) == Total(d, l)
  {
    if l != [] {
      assert l[0] in NameSet(l) && NameSet(l[1..]) <= NameSet(l);
      CountsAll(d, l[1..], io);
    }
  }

  lemma {:induction false} PrunePointIsLeast(d: Disk, l: seq<string>, limit: nat)
    requires forall n :: n in l ==> n in d
    ensures var k := PrunePoint(d, l, limit);
            && Total(d, l[k..]) <= limit
            && forall j :: 0 <= j < k ==> Total(d, l[j..]) > limit
  {
    assert l[0..] == l;
    if Total(d, l) > limit {
      PrunePointIsLeast(d, l[1..], limit);
      var k := PrunePoint(d, l[1..], limit);
      assert l[1..][k..] == l[k + 1..];
      forall j | 0 <= j < k + 1 ensures Total(d, l[j..]) > limit {
        assert j > 0 ==> l[1..][j - 1..] == l[j..];
      }
    }
  }

  /** Removing a prefix of the listing leaves the rest of the listing. */
  lemma ListingSuffix(d: Disk, k: nat)
    requires k <= |Listing(d)|
    ensures Listing(d - NameSet(Listing(d)[..k])) == Listing(d)[k..]
  {
    var l := Listing(d);
    SortedIsDistinct(l);
    var e := d - NameSet(l[..k]);
    assert forall i :: 0 <= i < k ==> l[i] in l[..k];
    forall n ensures n in l[k..] <==> n in e && IsBatchFile(n) {
      if n in l[k..] {
        var i :| k <= i < |l| && l[i] == n;
        assert n in l && n !in l[..k];
      }
      if n in e && IsBatchFile(n) {
        var i :| 0 <= i < |l| && l[i] == n;
        assert i >= k && l[k..][i - k] == n;
      }
    }
    ListingEquals(e, l[k..]);
  }

  /** What Prune leaves of the listing: from position k on, the longest suffix that fits. */
  ghost predicate KeepsFrom(d: Disk, e: Disk, limit: nat, k: nat) {
    && k <= |Listing(d)|
    && e == d - NameSet(Listing(d)[..k]) && Listing(e) == Listing(d)[k..]
    && Total(d, Listing(d)[k..]) <= limit
    && forall j :: 0 <= j < k ==> Total(d, Listing(d)[j..]) > limit
  }

  /**
   * Unless a file operation fails, Prune keeps the longest suffix of the name order that fits, and all unlisted files.
   */
  lemma PruneKeepsLongestSuffix(d: Disk, limit: nat, io: PruneIo) returns (k: nat)
    requires Smooth(io, NameSet(Listing(d)))
    ensures Pruned(d, limit, io).1 && KeepsFrom(d, Pruned(d, limit, io).0, limit, k)
  {
    var l := Listing(d);
    ListingIsDistinct(d);
    k := PrunePoint(d, l, limit);
    CountsAll(d, l, io);
    RemovesPrefix(d, l, limit, io);
    PrunePointIsLeast(d, l, limit);
    ListingSuffix(d, k);
  }

  /** e is d without some files named in l, and no removed file is younger than a kept one whose size could be read. */
  predicate RemovedOldest(d: Disk, e: Disk, l: seq<string>, io: PruneIo) {
    && (forall n :: n in e ==> n in d && e[n] == d[n])
    && (forall n :: n in d && n !in e ==> n in l && n !in io.stuck)
    && (forall i, j :: 0 <= i < j < |l| && l[i] in e && l[j] !in e ==> l[i] in io.unsized)
  }

  /** Whatever fails, Prune only removes listed files, oldest first. */
  lemma {:induction false} RemoveIsSafe(d: Disk, l: seq<string>, total: int, limit: nat, io: PruneIo)
    requires forall n :: n in l ==> n in d
    requires Distinct(l)
    ensures RemovedOldest(d, Remove(d, l, total, limit, io).0, l, io)
    decreases |l|
  {
    if l != [] && total > limit {
      if l[0] in io.unsized {
        RemoveIsSafe(d, l[1..], total, limit, io);
      } else if l[0] !in io.stuck {
        RemoveIsSafe(d - {l[0]}, l[1..], total - d[l[0]].size, limit, io);
      }
    }
  }

  lemma PruneIsSafe(d: Disk, limit: nat, io: PruneIo)
    ensures RemovedOldest(d, Pruned(d, limit, io).0, Listing(d), io)
  {
    ListingIsDistinct(d);
    if io.listable {
      RemoveIsSafe(d, Listing(d), Counted(d, Listing(d), io), limit, io);
    }
  }

  // ----- The directory as a whole -----

  /** The combined size of the named files. */
  ghost function BytesOf(d: Disk, s: set<string>): nat
    requires s <= d.Keys
    decreases s
  {
    if s == {} then 0 else d[Least(s)].size + BytesOf(d, s - {Least(s)})
  }

  lemma {:induction false} BytesWithout(d: Disk, s: set<string>, n: string)
    requires s <= d.Keys && n in s
    ensures BytesOf(d, s) == d[n].size + BytesOf(d, s - {n})
    decreases s
  {
    var m := Least(s);
    if m != n {
      BytesWithout(d, s - {m}, n);
      BytesWithout(d, s - {n}, m);
      assert s - {m} - {n} == s - {n} - {m};
    }
  }

  lemma {:induction false} BytesSplit(d: Disk, s: set<string>, t: set<string>)
    requires s + t <= d.Keys && s !! t
    ensures BytesOf(d, s + t) == BytesOf(d, s) + BytesOf(d, t)
    decreases s
  {
    if s == {} {
      assert s + t == t;
    } else {
      var n := Least(s);
      BytesSplit(d, s - {n}, t);
      BytesWithout(d, s + t, n);
      assert s + t - {n} == s - {n} + t;
    }
  }

  lemma {:induction false} BytesAgree(d: Disk, e: Disk, s: set<string>)
    requires s <= d.Keys && s <= e.Keys && forall n :: n in s ==> d[n] == e[n]
    ensures BytesOf(d, s) == BytesOf(e, s)
    decreases s
  {
    if s != {} {
      BytesAgree(d, e, s - {Least(s)});
    }
  }

  lemma {:induction false} BytesListed(d: Disk, l: seq<string>)
    requires Distinct(l) && forall n :: n in l ==> n in d
    ensures NameSet(l) <= d.Keys && BytesOf(d, NameSet(l)) == Total(d, l)
    decreases |l|
  {
    if l != [] {
      BytesListed(d, l[1..]);
      BytesWithout(d, NameSet(l), l[0]);
      assert NameSet(l) - {l[0]} == NameSet(l[1..]);
    }
  }

  function Unlisted(d: Disk): set<string> {
    set n | n in d && !IsBatchFile(n)
  }

  /** Everything in the directory: what is listed and the leftovers beside it. */
  lemma AllBytes(d: Disk)
    ensures BytesOf(d, d.Keys) == BytesOf(d, Unlisted(d)) + Total(d, Listing(d))
  {
    ListingIsDistinct(d);
    BytesListed(d, Listing(d));
    assert d.Keys == Unlisted(d) + NameSet(Listing(d));
    BytesSplit(d, Unlisted(d), NameSet(Listing(d)));
  }

  /** The files whose size the removing loop can read. */
  function Sized(io: PruneIo): string -> bool {
    (n: string) => n !in io.unsized
  }

  /** How many of the files in r, oldest first, go until the counted bytes fit or a removal fails. */
  function Taken(d: Disk, r: seq<string>, total: int, limit: nat, io: PruneIo): (k: nat)
    requires forall n :: n in r ==> n in d
    ensures k <= |r|
  {
    if r == [] || total <= limit || r[0] in io.stuck then 0
    else 1 + Taken(d, r[1..], total - d[r[0]].size, limit, io)
  }

  lemma {:induction false} TakenAgrees(d: Disk, e: Disk, r: seq<string>, total: int, limit: nat, io: PruneIo)
    requires forall n :: n in r ==> n in d && n in e && d[n] == e[n]
    ensures Taken(d, r, total, limit, io) == Taken(e, r, total, limit, io)
  {
    if r != [] {
      TakenAgrees(d, e, r[1..], total - d[r[0]].size, limit, io);
    }
  }

  /** The bytes of the files taken. */
  function Freed(d: Disk, r: seq<string>, total: int, limit: nat, io: PruneIo): nat
    requires forall n :: n in r ==> n in d
  {
    Total(d, r[..Taken(d, r, total, limit, io)])
  }

  lemma FreedFirst(d: Disk, n: string, rest: seq<string>, total: int, limit: nat, io: PruneIo)
    requires n in d && n !in rest && forall m :: m in rest ==> m in d
    ensures Freed(d, [n] + rest, total, limit, io) ==
            if total <= limit || n in io.stuck then 0
            else d[n].size + Freed(d - {n}, rest, total - d[n].size, limit, io)
  {
    var r := [n] + rest;
    assert r[1..] == rest;
    if total > limit && n !in io.stuck {
      var left := total - d[n].size;
      TakenAgrees(d, d - {n}, rest, left, limit, io);
      var k := Taken(d, rest, left, limit, io);
      assert r[..k + 1][1..] == rest[..k];
      TotalAgrees(d, d - {n}, rest[..k]);
    }
  }

  lemma BytesDrop(d: Disk, n: string)
    requires n in d
    ensures BytesOf(d, d.Keys) == d[n].size + BytesOf(d - {n}, (d - {n}).Keys)
  {
    BytesWithout(d, d.Keys, n);
    BytesAgree(d, d - {n}, d.Keys - {n});
    assert (d - {n}).Keys == d.Keys - {n};
  }

  lemma SizedRest(l: seq<string>, io: PruneIo)
    requires Distinct(l) && l != []
    ensures var rest := Filter(l[1..], Sized(io));
            && Filter(l, Sized(io)) == (if l[0] in io.unsized then rest else [l[0]] + rest)
            && (forall n :: n in rest ==> n in l[1..] && n in l) && l[0] !in rest
  {
    var rest := Filter(l[1..], Sized(io));
    forall n | n in rest ensures n in l[1..] {
      var i :| 0 <= i < |rest| && rest[i] == n;
    }
  }

  lemma SizedAre(d: Disk, l: seq<string>, io: PruneIo)
    requires forall n :: n in l ==> n in d
    ensures forall n :: n in Filter(l, Sized(io)) ==> n in d
  {
    var r := Filter(l, Sized(io));
    forall n | n in r ensures n in d {
      var i :| 0 <= i < |r| && r[i] == n;
    }
  }

  /** The bytes a run of the removing loop frees. */
  ghost predicate Frees(d: Disk, l: seq<string>, total: int, limit: nat, io: PruneIo)
    requires Distinct(l) && forall n :: n in l ==> n in d
  {
    SizedAre(d, l, io);
    var e := Remove(d, l, total, limit, io).0;
    BytesOf(e, e.Keys) + Freed(d, Filter(l, Sized(io)), total, limit, io) == BytesOf(d, d.Keys)
  }

  lemma FreesFirst(d: Disk, l: seq<string>, total: int, limit: nat, io: PruneIo)
    requires Distinct(l) && (forall n :: n in l ==> n in d) && l != [] && total > limit
    requires l[0] !in io.unsized && l[0] !in io.stuck
    requires Frees(d - {l[0]}, l[1..], total - d[l[0]].size, limit, io)
    ensures Frees(d, l, total, limit, io)
  {
    var n, rest := l[0], Filter(l[1..], Sized(io));
    SizedRest(l, io);
    assert Remove(d, l, total, limit, io) == Remove(d - {n}, l[1..], total - d[n].size, limit, io);
    hide Filter, BytesOf, Freed, Sized, Remove;
    SizedAre(d, l[1..], io);
    FreedFirst(d, n, rest, total, limit, io);
    BytesDrop(d, n);
  }

  lemma FreesNone(d: Disk, l: seq<string>, total: int, limit: nat, io: PruneIo)
    requires Distinct(l) && forall n :: n in l ==> n in d
    requires l == [] || total <= limit || (l[0] !in io.unsized && l[0] in io.stuck)
    ensures Frees(d, l, total, limit, io)
  {
    if l != [] { SizedRest(l, io); }
    hide BytesOf;
  }

  /** The removing loop frees the bytes of the oldest files whose size can be read. */
  lemma {:induction false} RemoveFrees(d: Disk, l: seq<string>, total: int, limit: nat, io: PruneIo)
    requires Distinct(l) && forall n :: n in l ==> n in d
    ensures Frees(d, l, total, limit, io)
    decreases |l|
  {
    if l == [] || total <= limit || (l[0] !in io.unsized && l[0] in io.stuck) {
      FreesNone(d, l, total, limit, io);
    } else if l[0] in io.unsized {
      RemoveFrees(d, l[1..], total, limit, io);
      SizedRest(l, io);
      hide BytesOf, Freed, Filter, Sized;
    } else {
      hide Frees;
      RemoveFrees(d - {l[0]}, l[1..], total - d[l[0]].size, limit, io);
      FreesFirst(d, l, total, limit, io);
    }
  }

  /**
   * Whatever fails, the directory is within the limit after a prune exactly if what it holds before exceeds the limit
   * by no more than the oldest files that can be sized, up to the point where the counted bytes fit or a removal fails.
   */
  lemma PruneBoundsDirectory(d: Disk, limit: nat, io: PruneIo)
    ensures var e, l := Pruned(d, limit, io).0, Listing(d);
            BytesOf(e, e.Keys) <= limit <==>
            BytesOf(d, d.Keys) <=
            limit + if io.listable then Freed(d, Filter(l, Sized(io)), Counted(d, l, io), limit, io) else 0
  {
    ListingIsDistinct(d);
    if io.listable {
      RemoveFrees(d, Listing(d), Counted(d, Listing(d), io), limit, io);
    }
  }

  lemma BytesKept(d: Disk, k: nat)
    requires k <= |Listing(d)|
    ensures var e := d - NameSet(Listing(d)[..k]);
            BytesOf(e, e.Keys) == BytesOf(d, Unlisted(d)) + Total(d, Listing(d)[k..])
  {
    var e := d - NameSet(Listing(d)[..k]);
    assert Unlisted(e) == Unlisted(d);
    hide NameSet, Unlisted;
    ListingSuffix(d, k);
    AllBytes(e);
    TotalAgrees(d, e, Listing(d)[k..]);
    BytesAgree(d, e, Unlisted(d));
  }

  /**
   * When nothing fails, exactly if the leftovers leave room for the longest suffix of the listing that fits by itself;
   * so always when there are none.
   */
  lemma PruneMakesRoom(d: Disk, limit: nat, io: PruneIo)
    requires Smooth(io, NameSet(Listing(d)))
    ensures var e, l := Pruned(d, limit, io).0, Listing(d);
            && Pruned(d, limit, io).1
            && (BytesOf(e, e.Keys) <= limit <==>
                BytesOf(d, Unlisted(d)) + Total(d, l[PrunePoint(d, l, limit)..]) <= limit)
            && (Unlisted(d) == {} ==> BytesOf(e, e.Keys) <= limit)
  {
    var k := PrunePoint(d, Listing(d), limit);
    ListingIsDistinct(d);
    CountsAll(d, Listing(d), io);
    RemovesPrefix(d, Listing(d), limit, io);
    PrunePointIsLeast(d, Listing(d), limit);
    BytesKept(d, k);
    assert Unlisted(d) == {} ==> BytesOf(d, Unlisted(d)) == 0;
    hide BytesOf, NameSet, Total, Unlisted;
  }

  /** The directory the comment's bound misses: one leftover larger than the limit, which no prune removes. */
  lemma LeftoverExceedsLimit(limit: nat, io: PruneIo)
    requires io.listable
    ensures var d: Disk := map[TmpName("batch.json") := File(None, limit + 1)];
            Pruned(d, limit, io) == (d, true) && BytesOf(d, d.Keys) > limit
  {
    var d: Disk := map[TmpName("batch.json") := File(None, limit + 1)];
    SideFilesAreNotListed("batch.json", Civil(0, 0, 0, 0, 0, 0), "");
    assert Listing(d) == [] by { ListingEquals(d, []); }
    assert d.Keys == {TmpName("batch.json")};
    BytesWithout(d, d.Keys, TmpName("batch.json"));
  }

  /** Nor does the bound hold without leftovers: a file whose size cannot be read stays, and Prune reports success. */
  lemma UnreadSizeExceedsLimit(limit: nat)
    ensures var d: Disk := map["batch.json" := File(None, limit + 1)];
            var io := PruneIo(true, {"batch.json"}, {"batch.json"}, {});
            Unlisted(d) == {} && Pruned(d, limit, io) == (d, true) && BytesOf(d, d.Keys) > limit
  {
    var d: Disk := map["batch.json" := File(None, limit + 1)];
    assert IsBatchFile("batch.json");
    assert Listing(d) == ["batch.json"] by { ListingEquals(d, ["batch.json"]); }
    var io := PruneIo(true, {"batch.json"}, {"batch.json"}, {});
    assert Counted(d, ["batch.json"], io) == 0;
    assert d.Keys == {"batch.json"} && Unlisted(d) == {};
    BytesWithout(d, d.Keys, "batch.json");
  }

  function SetAside(d: Disk, n: string): Disk
    requires n in d
  {
    (d - {n})[CorruptName(n) := d[n]]
  }

  datatype Drained = Drained(disk: Disk, wire: Wire, fates: seq<Fate>, failed: bool)

  /** What fails while draining: listing the directory, reading a file, setting it aside, or removing it. */
  datatype DrainIo = DrainIo(listable: bool, unreadable: set<string>, unmovable: set<string>, undeletable: set<string>)

  /** Drain over the listed names l: each decodable file is posted and removed until something fails. */
  function Drain(d: Disk, w: Wire, l: seq<string>, fates: seq<Fate>, io: DrainIo): Drained
    decreases |l|
  {
    if l == [] then Drained(d, w, fates, false)
    else if l[0] !in d || l[0] in io.unreadable then Drained(d, w, fates, true)
    else match d[l[0]].content
      case None => Drain(if l[0] in io.unmovable then d else SetAside(d, l[0]), w, l[1..], fates, io)
      case Some(p) =>
        var (w', ok) := Post(w, p, NextFate(fates));
        if ok && l[0] !in io.undeletable then Drain(d - {l[0]}, w', l[1..], LaterFates(fates), io)
        else Drained(d, w', LaterFates(fates), true)
  }

  /** A whole drain. */
  ghost function DrainAll(d: Disk, w: Wire, fates: seq<Fate>, io: DrainIo): Drained {
    if io.listable then Drain(d, w, Listing(d), fates, io) else Drained(d, w, fates, true)
  }

  /** n does not decode and cannot be set aside. */
  predicate Lodged(d: Disk, io: DrainIo, n: string) {
    n in d && d[n].content.None? && n in io.unmovable
  }

  /**
   * File d[n] was handled by a drain that ended at disk e and wire w: delivered, set aside, or left where it lodges.
   */
  predicate Handled(d: Disk, e: Disk, w: Wire, io: DrainIo, n: string) {
    && n in d
    && if Lodged(d, io, n) then n in e && e[n] == d[n]
       else
         n !in e &&
         match d[n].content
         case Some(p) => p.batch in w.acked
         case None => CorruptName(n) in e && e[CorruptName(n)] == d[n]
  }

  /** A drain that stopped after k names: l[..k] handled, the rest untouched, a failing file first. */
  predicate StoppedAt(d: Disk, l: seq<string>, r: Drained, io: DrainIo, k: nat) {
    && k <= |l|
    && (forall n :: n in l[..k] ==> Handled(d, r.disk, r.wire, io, n))
    && (forall n :: n in d && n !in l[..k] && IsBatchFile(n) ==> n in r.disk && r.disk[n] == d[n])
    && (forall n :: n in r.disk && IsBatchFile(n) ==> n in d && (n !in l[..k] || Lodged(d, io, n)))
    && (r.failed ==> k < |l| && l[k] in d)
    && (!r.failed ==> k == |l|)
  }

  lemma {:induction false} AckedGrows(w: Wire, ds: seq<Delivery>)
    ensures w.acked <= ArriveAll(w, ds).acked && w.sent == ArriveAll(w, ds).sent
    decreases |ds|
  {
    if ds != [] {
      AckedGrows(Arrive(w, ds[0]), ds[1..]);
    }
  }

  lemma {:induction false} DrainAcks(d: Disk, w: Wire, l: seq<string>, fates: seq<Fate>, io: DrainIo)
    ensures w.acked <= Drain(d, w, l, fates, io).wire.acked
    decreases |l|
  {
    if l != [] && l[0] in d && l[0] !in io.unreadable {
      match d[l[0]].content
      case None => DrainAcks(if l[0] in io.unmovable then d else SetAside(d, l[0]), w, l[1..], fates, io);
      case Some(p) =>
        var fate := NextFate(fates);
        AckedGrows(if fate.leaves then w.(sent := w.sent + {p}) else w, fate.arrivals);
        DrainAcks(d - {l[0]}, Post(w, p, fate).0, l[1..], LaterFates(fates), io);
    }
  }

  /** Draining l leaves every file alone that is neither in l nor the set-aside name of one in l. */
  lemma {:induction false} DrainLeavesOthers(d: Disk, w: Wire, l: seq<string>, fates: seq<Fate>, io: DrainIo, n: string)
    requires forall x :: x in l ==> x in d && IsBatchFile(x)
    requires Distinct(l)
    requires n in d && n !in l && forall x :: x in l ==> CorruptName(x) != n
    ensures var e := Drain(d, w, l, fates, io).disk; n in e && e[n] == d[n]
    decreases |l|
  {
    hide IsBatchFile, Post;
    if l != [] {
      SideFilesAreNotListed(l[0], Civil(0, 0, 0, 0, 0, 0), "");
      match d[l[0]].content
      case None => DrainLeavesOthers(if l[0] in io.unmovable then d else SetAside(d, l[0]), w, l[1..], fates, io, n);
      case Some(p) => DrainLeavesOthers(d - {l[0]}, Post(w, p, NextFate(fates)).0, l[1..], LaterFates(fates), io, n);
    }
  }

  lemma CorruptNamesDiffer(a: string, b: string)
    requires a != b
    ensures CorruptName(a) != CorruptName(b)
  {
    assert CorruptName(a)[..|a|] == a && CorruptName(b)[..|b|] == b;
  }

  /** One handled file in front of a stopped drain. */
  lemma Shift(d: Disk, e: Disk, l: seq<string>, r: Drained, io: DrainIo, k: nat) returns (m: nat)
    requires l != [] && l[0] in d && IsBatchFile(l[0]) && l[0] !in l[1..]
    requires forall n :: IsBatchFile(n) && n != l[0] ==> (n in e <==> n in d) && (n in e ==> e[n] == d[n])
    requires l[0] in e ==> Lodged(d, io, l[0]) && e == d
    requires forall n :: n in l ==> IsBatchFile(n)
    requires StoppedAt(e, l[1..], r, io, k) && Handled(d, r.disk, r.wire, io, l[0])
    ensures m == k + 1 && StoppedAt(d, l, r, io, m)
  {
    hide IsBatchFile;
    m := k + 1;
    assert l[..m] == [l[0]] + l[1..][..k];
    forall n | n in l[..m] ensures Handled(d, r.disk, r.wire, io, n) {
      if n != l[0] {
        assert n in l[1..][..k] && Handled(e, r.disk, r.wire, io, n);
        assert n in l;
      }
    }
    if r.failed {
      assert l[m] == l[1..][k];
      assert l[m] in l;
    }
  }

  lemma {:induction false} StopsAfterSent(d: Disk, w: Wire, l: seq<string>, fates: seq<Fate>, io: DrainIo)
    returns (k: nat)
    requires forall n :: n in l ==> n in d && IsBatchFile(n)
    requires Distinct(l) && l != [] && l[0] !in io.unreadable + io.undeletable
    requires d[l[0]].content.Some? && Post(w, d[l[0]].content.value, NextFate(fates)).1
    ensures StoppedAt(d, l, Drain(d, w, l, fates, io), io, k)
    decreases |l|, 0
  {
    hide IsBatchFile;
    var n, w' := l[0], Post(w, d[l[0]].content.value, NextFate(fates)).0;
    assert n !in l[1..];
    k := DrainStopsAt(d - {n}, w', l[1..], LaterFates(fates), io);
    DrainAcks(d - {n}, w', l[1..], LaterFates(fates), io);
    k := Shift(d, d - {n}, l, Drain(d - {n}, w', l[1..], LaterFates(fates), io), io, k);
  }

  /** Drain handles a prefix of the listing and, if it fails, stops with the failing file still there. */
  lemma {:induction false} DrainStopsAt(d: Disk, w: Wire, l: seq<string>, fates: seq<Fate>, io: DrainIo)
    returns (k: nat)
    requires forall n :: n in l ==> n in d && IsBatchFile(n)
    requires Distinct(l)
    ensures StoppedAt(d, l, Drain(d, w, l, fates, io), io, k)
    decreases |l|
  {
    k := 0;
    if l != [] && l[0] !in io.unreadable {
      if d[l[0]].content.None? {
        k := StopsAfterCorrupt(d, w, l, fates, io);
      } else if Post(w, d[l[0]].content.value, NextFate(fates)).1 && l[0] !in io.undeletable {
        k := StopsAfterSent(d, w, l, fates, io);
      }
    }
  }

  lemma {:induction false} StopsAfterCorrupt(d: Disk, w: Wire, l: seq<string>, fates: seq<Fate>, io: DrainIo)
    returns (k: nat)
    requires forall n :: n in l ==> n in d && IsBatchFile(n)
    requires Distinct(l) && l != [] && l[0] !in io.unreadable && d[l[0]].content.None?
    ensures StoppedAt(d, l, Drain(d, w, l, fates, io), io, k)
    decreases |l|, 0
  {
    hide IsBatchFile, Post;
    var n := l[0];
    var e := if n in io.unmovable then d else SetAside(d, n);
    SideFilesAreNotListed(n, Civil(0, 0, 0, 0, 0, 0), "");
    assert n !in l[1..];
    k := DrainStopsAt(e, w, l[1..], fates, io);
    forall x | x in l[1..] ensures CorruptName(x) != CorruptName(n) && CorruptName(x) != n {
      CorruptNamesDiffer(x, n);
      SideFilesAreNotListed(x, Civil(0, 0, 0, 0, 0, 0), "");
    }
    var kept := if n in io.unmovable then n else CorruptName(n);
    DrainLeavesOthers(e, w, l[1..], fates, io, kept);
    k := Shift(d, e, l, Drain(e, w, l[1..], fates, io), io, k);
  }

  lemma SuffixListed(d: Disk, r: Drained, io: DrainIo, k: nat)
    requires StoppedAt(d, Listing(d), r, io, k) && forall n :: n in Listing(d)[..k] ==> !Lodged(d, io, n)
    ensures Listing(r.disk) == Listing(d)[k..]
  {
    var l := Listing(d);
    ListingIsDistinct(d);
    assert forall i :: 0 <= i < k ==> l[i] in l[..k];
    forall n ensures n in l[k..] <==> n in r.disk && IsBatchFile(n) {
      if n in l[k..] {
        var i :| k <= i < |l| && l[i] == n;
        assert n in l && n !in l[..k];
      }
      if n in r.disk && IsBatchFile(n) {
        var i :| 0 <= i < |l| && l[i] == n;
        assert i >= k && l[k..][i - k] == n;
      }
    }
    ListingEquals(r.disk, l[k..]);
  }

  /**
   * The listing after a drain is a suffix of the listing before it, unless an undecodable file could not be set aside.
   */
  lemma DrainKeepsSuffix(d: Disk, w: Wire, fates: seq<Fate>, io: DrainIo) returns (k: nat)
    requires io.listable
    ensures StoppedAt(d, Listing(d), DrainAll(d, w, fates, io), io, k)
    ensures Listing(DrainAll(d, w, fates, io).disk) == Listing(d)[k..] <==>
            forall n :: n in Listing(d)[..k] ==> !Lodged(d, io, n)
  {
    var l := Listing(d);
    ListingIsDistinct(d);
    k := DrainStopsAt(d, w, l, fates, io);
    var r := DrainAll(d, w, fates, io);
    if n :| n in l[..k] && Lodged(d, io, n) {
      assert Handled(d, r.disk, r.wire, io, n);
      assert n in l && n in Listing(r.disk) && n !in l[k..];
    } else {
      SuffixListed(d, r, io, k);
    }
  }

  // ----- A drain that works -----

  /** The core has the batch already, or can store it. */
  predicate Accepts(t: Tables, p: Parcel, now: int) {
    p.batch != "" &&
    (HasBatch(t, p.batch) ||
     Insert(t.findings, t.nextId, p.scan, TagInventory(p.findings), now, Some(p.batch)).Some?)
  }

  /** The request leaves, reaches the core while the core can store it, and is answered. */
  ghost predicate Healthy(w: Wire, p: Parcel, fate: Fate) {
    fate.leaves && fate.answered && exists now :: fate.arrivals == [Delivery(p, now, false)] && Accepts(w.core, p, now)
  }

  lemma HealthyPosts(w: Wire, p: Parcel, fate: Fate)
    requires Healthy(w, p, fate)
    ensures Post(w, p, fate).1
  {
    var now :| fate.arrivals == [Delivery(p, now, false)] && Accepts(w.core, p, now);
    var v := w.(sent := w.sent + {p});
    assert |fate.arrivals[1..]| == 0;
    assert ArriveAll(v, fate.arrivals) == Arrive(v, Delivery(p, now, false));
  }

  /** Every POST of a drain over l is healthy, and no file operation fails. */
  ghost predicate AllHealthy(d: Disk, w: Wire, l: seq<string>, fates: seq<Fate>, io: DrainIo)
    decreases |l|
  {
    l == [] ||
    (l[0] in d && l[0] !in io.unreadable + io.unmovable + io.undeletable &&
     match d[l[0]].content
     case None => AllHealthy(SetAside(d, l[0]), w, l[1..], fates, io)
     case Some(p) =>
       Healthy(w, p, NextFate(fates)) &&
       AllHealthy(d - {l[0]}, Post(w, p, NextFate(fates)).0, l[1..], LaterFates(fates), io))
  }

  lemma {:induction false} HealthyDrainEnds(d: Disk, w: Wire, l: seq<string>, fates: seq<Fate>, io: DrainIo)
    requires AllHealthy(d, w, l, fates, io)
    ensures !Drain(d, w, l, fates, io).failed
    decreases |l|
  {
    if l != [] {
      match d[l[0]].content
      case None => HealthyDrainEnds(SetAside(d, l[0]), w, l[1..], fates, io);
      case Some(p) =>
        HealthyPosts(w, p, NextFate(fates));
        HealthyDrainEnds(d - {l[0]}, Post(w, p, NextFate(fates)).0, l[1..], LaterFates(fates), io);
    }
  }

  lemma {:induction false} HealthyIsMovable(d: Disk, w: Wire, l: seq<string>, fates: seq<Fate>, io: DrainIo)
    requires AllHealthy(d, w, l, fates, io)
    ensures forall n :: n in l ==> n !in io.unmovable
    decreases |l|
  {
    if l != [] {
      match d[l[0]].content
      case None => HealthyIsMovable(SetAside(d, l[0]), w, l[1..], fates, io);
      case Some(p) => HealthyIsMovable(d - {l[0]}, Post(w, p, NextFate(fates)).0, l[1..], LaterFates(fates), io);
    }
  }

  /** When every POST arrives, is accepted and answered, and the disk works, a drain empties the outbox. */
  lemma HealthyDrainEmpties(d: Disk, w: Wire, fates: seq<Fate>, io: DrainIo)
    requires io.listable && AllHealthy(d, w, Listing(d), fates, io)
    ensures !DrainAll(d, w, fates, io).failed && Listing(DrainAll(d, w, fates, io).disk) == []
  {
    HealthyDrainEnds(d, w, Listing(d), fates, io);
    HealthyIsMovable(d, w, Listing(d), fates, io);
    var k := DrainKeepsSuffix(d, w, fates, io);
    assert Listing(d)[|Listing(d)|..] == [];
  }

  // ----- Spooling -----

  /**
   * How the file operations of Spool end: nothing was written, the temporary file was cut short, the rename failed and
   * its cleanup may too, or the file is in place and the prune ran.
   */
  datatype SpoolIo = Unwritten | CutShort(bytes: nat) | Unrenamed(cleaned: bool) | Placed(prune: PruneIo)

  /** The disk with p in place as name. */
  function PlacedDisk(d: Disk, p: Parcel, name: string, size: nat): Disk {
    (d - {TmpName(name)})[name := File(Some(p), size)]
  }

  /** The disk after Spool, and whether it reports success. */
  ghost function SpoolResult(d: Disk, p: Parcel, name: string, size: nat, io: SpoolIo, limit: nat): (Disk, bool) {
    if p.scan == "" || p.batch == "" then (d, false)
    else match io
      case Unwritten => (d, false)
      case CutShort(bytes) => (d[TmpName(name) := File(None, bytes)], false)
      case Unrenamed(cleaned) =>
        (if cleaned then d - {TmpName(name)} else d[TmpName(name) := File(Some(p), size)], false)
      case Placed(prune) => Pruned(PlacedDisk(d, p, name, size), limit, prune)
  }

  /** The directory d with the batch beside what it held. */
  function With(d: Disk, p: Parcel, name: string, size: nat): Disk {
    d[name := File(Some(p), size)]
  }

  /**
   * Of f's files the listed ones from k on, the longest suffix in name order whose bytes fit, and the others but tmp.
   */
  ghost predicate LongestFitFrom(f: Disk, e: Disk, tmp: string, limit: nat, k: nat) {
    var l := Listing(f);
    && k <= |l| && Listing(e) == l[k..] && Total(f, l[k..]) <= limit
    && (forall j :: 0 <= j < k ==> Total(f, l[j..]) > limit)
    && (forall n :: n in e <==> n in f && n != tmp && n !in l[..k])
    && (forall n :: n in e ==> e[n] == f[n])
  }

  /**
   * e is the directory d after p was spooled as name and nothing failed: of the files listed in d and the new one the
   * longest suffix in name order that fits, and of the others all but the temporary file.
   */
  ghost predicate SpooledInto(d: Disk, e: Disk, p: Parcel, name: string, size: nat, limit: nat) {
    var f, tmp := d[name := File(Some(p), size)], TmpName(name);
    exists k :: LongestFitFrom(f, e, tmp, limit, k)
  }

  /** The listed files are the same. */
  ghost predicate SameFiles(d: Disk, e: Disk) {
    forall n :: IsBatchFile(n) ==> (n in e <==> n in d) && (n in e ==> e[n] == d[n])
  }

  lemma SuffixTotals(d: Disk, e: Disk, l: seq<string>, n: string)
    requires l != [] && l[0] == n && Distinct(l) && e == d - {n} && forall x :: x in l ==> x in d
    ensures forall i :: 0 <= i < |l| - 1 ==> l[1..][i] == l[i + 1] && Total(e, l[1..][i..]) == Total(d, l[i + 1..])
  {
    forall i | 0 <= i < |l| - 1 ensures Total(e, l[1..][i..]) == Total(d, l[i + 1..]) {
      assert l[1..][i..] == l[i + 1..];
      TotalAgrees(d, e, l[i + 1..]);
    }
  }

  lemma {:induction false} SmallerTotals(d: Disk, l: seq<string>)
    requires forall n :: n in l ==> n in d
    ensures forall i :: 0 <= i <= |l| ==> Total(d, l[i..]) <= Total(d, l)
    decreases |l|
  {
    if l != [] {
      SmallerTotals(d, l[1..]);
      forall i | 0 <= i <= |l| ensures Total(d, l[i..]) <= Total(d, l) {
        assert i > 0 ==> l[i..] == l[1..][i - 1..];
        assert i == 0 ==> l[i..] == l;
      }
    }
  }

  /** No file that has to go is stuck. */
  predicate NoneStuck(d: Disk, l: seq<string>, limit: nat, io: PruneIo)
    requires forall n :: n in l ==> n in d
  {
    forall i :: 0 <= i < |l| && Total(d, l[i..]) > limit ==> l[i] !in io.stuck
  }

  lemma NoneStuckRest(d: Disk, l: seq<string>, limit: nat, io: PruneIo)
    requires Distinct(l) && l != [] && forall n :: n in l ==> n in d
    requires NoneStuck(d, l, limit, io)
    ensures NoneStuck(d - {l[0]}, l[1..], limit, io)
  {
    var e := d - {l[0]};
    SuffixTotals(d, e, l, l[0]);
    hide Total;
    forall i | 0 <= i < |l[1..]| && Total(e, l[1..][i..]) > limit ensures l[1..][i] !in io.stuck {
      assert l[i + 1] !in io.stuck;
    }
  }

  lemma NoneStuckAll(d: Disk, l: seq<string>, limit: nat, io: PruneIo)
    requires Distinct(l) && l != [] && forall n :: n in l ==> n in d
    requires l[0] !in io.stuck && NoneStuck(d - {l[0]}, l[1..], limit, io)
    ensures NoneStuck(d, l, limit, io)
  {
    SuffixTotals(d, d - {l[0]}, l, l[0]);
    hide Total;
    forall i | 0 <= i < |l| && Total(d, l[i..]) > limit ensures l[i] !in io.stuck {
      if i > 0 { assert l[1..][i - 1] == l[i]; }
    }
  }

  lemma NoneStuckCons(d: Disk, l: seq<string>, limit: nat, io: PruneIo)
    requires Distinct(l) && l != [] && (forall n :: n in l ==> n in d) && Total(d, l) > limit
    ensures NoneStuck(d, l, limit, io) <==> l[0] !in io.stuck && NoneStuck(d - {l[0]}, l[1..], limit, io)
  {
    assert NoneStuck(d, l, limit, io) ==> l[0] !in io.stuck by {
      assert l[0..] == l;
    }
    hide NoneStuck, Total;
    if NoneStuck(d, l, limit, io) {
      NoneStuckRest(d, l, limit, io);
    } else if l[0] !in io.stuck && NoneStuck(d - {l[0]}, l[1..], limit, io) {
      NoneStuckAll(d, l, limit, io);
    }
  }

  lemma NoneNeeded(d: Disk, l: seq<string>, limit: nat, io: PruneIo)
    requires (forall n :: n in l ==> n in d) && (l == [] || Total(d, l) <= limit)
    ensures NoneStuck(d, l, limit, io)
  {
    SmallerTotals(d, l);
  }

  /** A pruning that can read all sizes succeeds unless it cannot remove a file that has to go. */
  lemma {:induction false} RemoveSucceeds(d: Disk, l: seq<string>, limit: nat, io: PruneIo)
    requires Distinct(l) && forall n :: n in l ==> n in d
    requires io.unsized !! NameSet(l)
    ensures Remove(d, l, Total(d, l), limit, io).1 <==> NoneStuck(d, l, limit, io)
    decreases |l|
  {
    hide NoneStuck;
    if l == [] || Total(d, l) <= limit {
      NoneNeeded(d, l, limit, io);
    } else {
      var n, rest, e := l[0], l[1..], d - {l[0]};
      assert n in NameSet(l) && NameSet(rest) <= NameSet(l);
      TotalAgrees(d, e, rest);
      NoneStuckCons(d, l, limit, io);
      if n !in io.stuck {
        assert Remove(d, l, Total(d, l), limit, io) == Remove(e, rest, Total(e, rest), limit, io);
        hide NameSet, Remove, Total;
        RemoveSucceeds(e, rest, limit, io);
      }
    }
  }

  /** The new file in place: the temporary one is gone, and the listing has the new name. */
  lemma PlacedListing(d: Disk, p: Parcel, name: string, size: nat)
    ensures Listing(PlacedDisk(d, p, name, size)) == Listing(With(d, p, name, size))
  {
    var placed, f := PlacedDisk(d, p, name, size), With(d, p, name, size);
    SideFilesAreNotListed(name, Civil(0, 0, 0, 0, 0, 0), "");
    assert |TmpName(name)| != |name|;
    hide IsBatchFile, TmpName;
    ListingEquals(placed, Listing(f));
  }

  lemma PlacedFiles(d: Disk, p: Parcel, name: string, size: nat)
    ensures var placed, f := PlacedDisk(d, p, name, size), With(d, p, name, size);
            && (forall n :: n in placed <==> n in f && n != TmpName(name))
                && (forall n :: n in placed ==> placed[n] == f[n])
            && (forall n :: n in Listing(f) ==> n in placed)
  {
    SideFilesAreNotListed(name, Civil(0, 0, 0, 0, 0, 0), "");
    assert |TmpName(name)| != |name|;
    hide IsBatchFile, TmpName;
  }

  lemma PlacedTotals(d: Disk, p: Parcel, name: string, size: nat)
    ensures var placed, f := PlacedDisk(d, p, name, size), With(d, p, name, size);
            forall n :: n in Listing(f) ==> n in placed
    ensures var placed, f := PlacedDisk(d, p, name, size), With(d, p, name, size);
            forall j :: 0 <= j <= |Listing(f)| ==> Total(placed, Listing(f)[j..]) == Total(f, Listing(f)[j..])
  {
    var placed, f := PlacedDisk(d, p, name, size), With(d, p, name, size);
    PlacedFiles(d, p, name, size);
    hide PlacedDisk, With, IsBatchFile, TmpName, Total;
    forall j | 0 <= j <= |Listing(f)| ensures Total(placed, Listing(f)[j..]) == Total(f, Listing(f)[j..]) {
      TotalAgrees(f, placed, Listing(f)[j..]);
    }
  }

  lemma KeptFits(d: Disk, e: Disk, p: Parcel, name: string, size: nat, limit: nat, k: nat)
    requires KeepsFrom(PlacedDisk(d, p, name, size), e, limit, k)
    ensures LongestFitFrom(With(d, p, name, size), e, TmpName(name), limit, k)
  {
    PlacedListing(d, p, name, size);
    PlacedFiles(d, p, name, size);
    PlacedTotals(d, p, name, size);
    hide PlacedDisk, With, IsBatchFile, TmpName, Total, Listing;
  }

  /** Spooling with a prune in which nothing fails. */
  lemma SpoolKeepsNewest(d: Disk, p: Parcel, name: string, size: nat, io: PruneIo, limit: nat)
    requires p.scan != "" && p.batch != "" && Smooth(io, NameSet(Listing(With(d, p, name, size))))
    ensures var (e, ok) := SpoolResult(d, p, name, size, Placed(io), limit);
            ok && SpooledInto(d, e, p, name, size, limit)
  {
    var placed := PlacedDisk(d, p, name, size);
    PlacedListing(d, p, name, size);
    hide Listing, LongestFitFrom, KeepsFrom, PlacedDisk, Smooth, Pruned;
    var k := PruneKeepsLongestSuffix(placed, limit, io);
    KeptFits(d, Pruned(placed, limit, io).0, p, name, size, limit, k);
  }

  /** Whether Spool reports success, when the prune can read all sizes. */
  lemma SpoolSucceeds(d: Disk, p: Parcel, name: string, size: nat, io: PruneIo, limit: nat)
    requires p.scan != "" && p.batch != ""
    requires io.uncounted !! NameSet(Listing(With(d, p, name, size)))
    requires io.unsized !! NameSet(Listing(With(d, p, name, size)))
    ensures var f := With(d, p, name, size);
            var l := Listing(f);
            SpoolResult(d, p, name, size, Placed(io), limit).1 <==>
            io.listable && NoneStuck(f, l, limit, io)
  {
    var placed, f := PlacedDisk(d, p, name, size), With(d, p, name, size);
    var l := Listing(f);
    PlacedListing(d, p, name, size);
    PlacedTotals(d, p, name, size);
    hide PlacedDisk, With, IsBatchFile, TmpName, Total, Listing, Remove, NameSet, Counted;
    ListingIsDistinct(placed);
    CountsAll(placed, l, io);
    RemoveSucceeds(placed, l, limit, io);
  }

  /** A spooling that does not put the batch in place leaves the listed files alone. */
  lemma UnspooledIsSame(d: Disk, p: Parcel, name: string, size: nat, io: SpoolIo, limit: nat)
    requires p.scan == "" || p.batch == "" || !io.Placed?
    ensures var (e, ok) := SpoolResult(d, p, name, size, io, limit); !ok && SameFiles(d, e)
  {
    SideFilesAreNotListed(name, Civil(0, 0, 0, 0, 0, 0), "");
    hide IsBatchFile, TmpName;
  }

  /**
   * How a spooling into d can end, at disk e. When nothing fails the newest files that fit are listed; when the prune
   * cannot list, or cannot remove a file that has to go, Spool fails; when the batch is not in place, the listed files
   * are the same.
   */
  ghost predicate SpoolEnds(d: Disk, e: Disk, ok: bool, p: Parcel, name: string, size: nat, io: SpoolIo, limit: nat) {
    if p.scan == "" || p.batch == "" || !io.Placed? then !ok && SameFiles(d, e)
    else
      var f := d[name := File(Some(p), size)];
      var l := Listing(f);
      && (Smooth(io.prune, NameSet(l)) ==>
          ok && SpooledInto(d, e, p, name, size, limit) && Total(e, Listing(e)) <= limit)
      && (!io.prune.listable ==> !ok)
      && (io.prune.uncounted !! NameSet(l) && io.prune.unsized !! NameSet(l) ==>
          (ok <==> io.prune.listable && NoneStuck(f, l, limit, io.prune)))
  }

  lemma SpoolPrunes(d: Disk, p: Parcel, name: string, size: nat, io: SpoolIo, limit: nat)
    ensures var (e, ok) := SpoolResult(d, p, name, size, io, limit); SpoolEnds(d, e, ok, p, name, size, io, limit)
  {
    if p.scan == "" || p.batch == "" || !io.Placed? {
      UnspooledIsSame(d, p, name, size, io, limit);
    } else {
      var f := With(d, p, name, size);
      var (e, _) := SpoolResult(d, p, name, size, io, limit);
      if Smooth(io.prune, NameSet(Listing(f))) {
        SpoolKeepsNewest(d, p, name, size, io.prune, limit);
        var k :| LongestFitFrom(f, e, TmpName(name), limit, k);
        TotalAgrees(f, e, Listing(e));
      }
      if io.prune.uncounted !! NameSet(Listing(f)) && io.prune.unsized !! NameSet(Listing(f)) {
        SpoolSucceeds(d, p, name, size, io.prune, limit);
      }
      hide Listing, IsBatchFile, TmpName, Remove, Total, LongestFitFrom;
    }
  }

  /** The outbox directory. */
  class Directory {
    const maxBytes: int
    var disk: Disk

    constructor (maxBytes: int)
      ensures this.maxBytes == maxBytes && disk == map[]
    {
      this.maxBytes, disk := maxBytes, map[];
    }

    method ListBatchFiles() returns (l: seq<string>)
      ensures l == Listing(disk)
    {
      l := Sort(set n | n in disk && IsBatchFile(n));
    }

    method CountFiles(l: seq<string>, io: PruneIo) returns (total: nat)
      requires forall n :: n in l ==> n in disk
      ensures total == Counted(disk, l, io)
    {
      total := 0;
      for i := 0 to |l|
        invariant total + Counted(disk, l[i..], io) == Counted(disk, l, io)
      {
        assert l[i..][0] == l[i] && l[i..][1..] == l[i + 1..];
        if l[i] in io.uncounted {
          continue;
        }
        total := total + disk[l[i]].size;
      }
    }

    method RemoveOldest(l: seq<string>, counted: nat, limit: nat, io: PruneIo) returns (ok: bool)
      requires Distinct(l) && forall n :: n in l ==> n in disk
      modifies this
      ensures (disk, ok) == Remove(old(disk), l, counted, limit, io)
    {
      var total: int := counted;
      var rest := l;
      while rest != []
        invariant Distinct(rest) && forall n :: n in rest ==> n in disk
        invariant Remove(old(disk), l, counted, limit, io) == Remove(disk, rest, total, limit, io)
        decreases |rest|
      {
        var f := rest[0];
        rest := rest[1..];
        if total <= limit {
          break;
        }
        if f in io.unsized {
          continue;
        }
        if f in io.stuck {
          return false;
        }
        total := total - disk[f].size;
        disk := disk - {f};
      }
      return true;
    }

    method Prune(io: PruneIo) returns (ok: bool)
      modifies this
      ensures (disk, ok) == Pruned(old(disk), Limit(maxBytes), io)
    {
      if !io.listable {
        return false;
      }
      var l := ListBatchFiles();
      ListingIsDistinct(disk);
      var total := CountFiles(l, io);
      if total <= Limit(maxBytes) {
        return true;
      }
      ok := RemoveOldest(l, total, Limit(maxBytes), io);
    }

    /** Writes the batch and prunes. */
    method Spool(p: Parcel, name: string, size: nat, io: SpoolIo) returns (ok: bool)
      modifies this
      ensures (disk, ok) == SpoolResult(old(disk), p, name, size, io, Limit(maxBytes))
      ensures SpoolEnds(old(disk), disk, ok, p, name, size, io, Limit(maxBytes))
    {
      SpoolPrunes(disk, p, name, size, io, Limit(maxBytes));
      hide SpoolEnds, Pruned, Limit, TmpName;
      if p.scan == "" || p.batch == "" || io.Unwritten? {
        return false;
      }
      if io.CutShort? {
        disk := disk[TmpName(name) := File(None, io.bytes)];
        return false;
      }
      disk := disk[TmpName(name) := File(Some(p), size)];
      if io.Unrenamed? {
        if io.cleaned {
          disk := disk - {TmpName(name)};
          assert disk == old(disk) - {TmpName(name)};
        }
        return false;
      }
      disk := (disk - {TmpName(name)})[name := disk[TmpName(name)]];
      assert disk == PlacedDisk(old(disk), p, name, size);
      ok := Prune(io.prune);
    }

    /** Posts the spooled batches in name order through r until something fails. */
    method DrainTo(r: Remote, io: DrainIo) returns (failed: bool)
      modifies this, r`sent, r`acked, r`fates, r.store
      ensures Drained(disk, r.Snapshot(), r.fates, failed) ==
              DrainAll(old(disk), old(r.Snapshot()), old(r.fates), io)
    {
      if !io.listable {
        return true;
      }
      var l := ListBatchFiles();
      ghost var run := Drain(disk, r.Snapshot(), l, r.fates, io);
      for i := 0 to |l|
        invariant run == Drain(disk, r.Snapshot(), l[i..], r.fates, io)
      {
        assert l[i..][0] == l[i] && l[i..][1..] == l[i + 1..];
        if l[i] !in disk || l[i] in io.unreadable {
          return true;
        }
        var file := disk[l[i]];
        if file.content.None? {
          if l[i] !in io.unmovable {
            disk := SetAside(disk, l[i]);
          }
          continue;
        }
        var ok := r.SendBytes(file.content.value);
        if !ok || l[i] in io.undeletable {
          return true;
        }
        disk := disk - {l[i]};
      }
      return false;
    }
  }
}
