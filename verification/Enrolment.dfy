/**
 * Agent enrolment and the key both sides derive from it (internal/store/agent.go, internal/agent/enrol.go,
 * internal/agent/hmac.go, internal/api/findings.go). Times are nanoseconds.
 */
module Enrolment {
  import opened Sequences

  /** SHA-256 as an injective constructor: the tables hold digests only. */
  datatype Digest = Sha256(raw: string)

  datatype Token = Token(expiresAt: int, usedAt: Option<int>)

  datatype Agent = Agent(secretHash: Digest, enrolledAt: int, revokedAt: Option<int>)

  /** The two tables; token_hash and hostname are unique columns. */
  datatype Core = Core(tokens: map<Digest, Token>, agents: map<string, Agent>)

  /** models.NormaliseHost: None for what is not a host name. */
  type Normaliser = string -> Option<string>

  datatype EnrolError = EnrolmentFailed | StoreError

  datatype EnrolResult = Enrolled(secret: string, hostname: string) | Refused(error: EnrolError)

  predicate Usable(c: Core, token: string, now: int) {
    Sha256(token) in c.tokens && c.tokens[Sha256(token)].usedAt.None? && now <= c.tokens[Sha256(token)].expiresAt
  }

  /** One exchange: every refusal leaves the tables as they were. */
  function Enrol(norm: Normaliser, c: Core, token: string, hostname: string, secret: string, now: int)
    : (Core, EnrolResult)
  {
    match norm(hostname)
    case None => (c, Refused(EnrolmentFailed))
    case Some(host) =>
      if !Usable(c, token, now) then (c, Refused(EnrolmentFailed))
      else if host in c.agents then (c, Refused(StoreError))
      else
        (Core(c.tokens[Sha256(token) := c.tokens[Sha256(token)].(usedAt := Some(now))],
              c.agents[host := Agent(Sha256(secret), now, None)]),
         Enrolled(secret, host))
  }

  function Issue(c: Core, token: string, ttl: int, now: int): Core {
    if ttl <= 0 || Sha256(token) in c.tokens then c
    else c.(tokens := c.tokens[Sha256(token) := Token(now + ttl, None)])
  }

  function Revoke(norm: Normaliser, c: Core, hostname: string, now: int): Core {
    match norm(hostname)
    case Some(host) =>
      if host in c.agents && c.agents[host].revokedAt.None?
      then c.(agents := c.agents[host := c.agents[host].(revokedAt := Some(now))]) else c
    case None => c
  }

  /** The key the core verifies a host's requests with. */
  function Lookup(norm: Normaliser, c: Core, hostname: string): Option<Digest> {
    match norm(hostname)
    case Some(host) =>
      if host in c.agents && c.agents[host].revokedAt.None? then Some(c.agents[host].secretHash) else None
    case None => None
  }

  // ----- What an operation does, row by row -----

  /** All agents but host are the same. */
  ghost predicate OthersSame(c: Core, d: Core, host: string) {
    forall h :: h in c.agents || h in d.agents ==>
      h == host || (h in c.agents && h in d.agents && d.agents[h] == c.agents[h])
  }

  /** d is c with host's agent revoked: now, or as of the first time. Nothing else changes. */
  ghost predicate RevokedIn(c: Core, d: Core, host: string, now: int) {
    && d.tokens == c.tokens && OthersSame(c, d, host) && (host in d.agents <==> host in c.agents)
    && (host in c.agents ==>
        && d.agents[host].secretHash == c.agents[host].secretHash
          && d.agents[host].enrolledAt == c.agents[host].enrolledAt
        && d.agents[host].revokedAt ==
           (if c.agents[host].revokedAt.Some? then c.agents[host].revokedAt else Some(now)))
  }

  /** Whether an exchange is granted, and what it leaves. */
  ghost predicate ExchangedIn(norm: Normaliser, c: Core, d: Core, r: EnrolResult, token: string, hostname: string,
                        secret: string, now: int)
  {
    var t := Sha256(token);
    && (r.Enrolled? <==>
        && norm(hostname).Some? && norm(hostname).value !in c.agents
        && t in c.tokens && c.tokens[t].usedAt.None? && now <= c.tokens[t].expiresAt)
    && (r.Refused? ==> d == c)
    && (r.Enrolled? ==>
        && r == Enrolled(secret, norm(hostname).value)
        && d.tokens == c.tokens[t := Token(c.tokens[t].expiresAt, Some(now))]
        && OthersSame(c, d, norm(hostname).value)
        && norm(hostname).value in d.agents
        && d.agents[norm(hostname).value] == Agent(Sha256(secret), now, None))
  }

  /** A token is added if its lifetime is positive and it is new. */
  predicate IssuedTo(c: Core, d: Core, token: string, ttl: int, now: int) {
    && d.agents == c.agents
    && d.tokens == (if ttl > 0 && Sha256(token) !in c.tokens then c.tokens[Sha256(token) := Token(now + ttl, None)]
                    else c.tokens)
  }

  lemma OperationsDo(norm: Normaliser, c: Core, token: string, hostname: string, secret: string, ttl: int, now: int)
    ensures IssuedTo(c, Issue(c, token, ttl, now), token, ttl, now)
    ensures var (d, r) := Enrol(norm, c, token, hostname, secret, now);
            ExchangedIn(norm, c, d, r, token, hostname, secret, now)
    ensures if norm(hostname).None? then Revoke(norm, c, hostname, now) == c
            else RevokedIn(c, Revoke(norm, c, hostname, now), norm(hostname).value, now)
  {
  }

  class Store {
    const norm: Normaliser
    var tokens: map<Digest, Token>
    var agents: map<string, Agent>

    constructor (norm: Normaliser)
      ensures this.norm == norm && Tables() == Core(map[], map[])
    {
      this.norm, tokens, agents := norm, map[], map[];
    }

    function Tables(): Core
      reads this
    {
      Core(tokens, agents)
    }

    /** plain is fresh randomness. */
    method CreateEnrolmentToken(plain: string, ttl: int, now: int) returns (ok: bool)
      modifies this
      ensures Tables() == Issue(old(Tables()), plain, ttl, now)
      ensures ok <==> ttl > 0 && Sha256(plain) !in old(tokens)
      ensures IssuedTo(old(Tables()), Tables(), plain, ttl, now)
    {
      if ttl <= 0 {
        return false;
      }
      if Sha256(plain) in tokens {
        return false;
      }
      tokens := tokens[Sha256(plain) := Token(now + ttl, None)];
      return true;
    }

    /** One transaction: the agent row first, whose failure rolls back, then the token. */
    method EnrolAgent(token: string, hostname: string, secret: string, now: int) returns (r: EnrolResult)
      modifies this
      ensures (Tables(), r) == Enrol(norm, old(Tables()), token, hostname, secret, now)
      ensures ExchangedIn(norm, old(Tables()), Tables(), r, token, hostname, secret, now)
    {
      var host := norm(hostname);
      if host.None? || Sha256(token) !in tokens {
        return Refused(EnrolmentFailed);
      }
      var t := tokens[Sha256(token)];
      if t.usedAt.Some? || now > t.expiresAt {
        return Refused(EnrolmentFailed);
      }
      if host.value in agents {
        return Refused(StoreError);
      }
      agents := agents[host.value := Agent(Sha256(secret), now, None)];
      tokens := tokens[Sha256(token) := t.(usedAt := Some(now))];
      return Enrolled(secret, host.value);
    }

    method RevokeAgent(hostname: string, now: int) returns (found: bool)
      modifies this
      ensures Tables() == Revoke(norm, old(Tables()), hostname, now)
      ensures found <==> norm(hostname).Some? && norm(hostname).value in old(agents)
      ensures norm(hostname).None? ==> Tables() == old(Tables())
      ensures norm(hostname).Some? ==> RevokedIn(old(Tables()), Tables(), norm(hostname).value, now)
    {
      var host := norm(hostname);
      if host.None? {
        return false;
      }
      if host.value in agents && agents[host.value].revokedAt.None? {
        agents := agents[host.value := agents[host.value].(revokedAt := Some(now))];
        return true;
      }
      return host.value in agents;
    }

    method LookupKey(hostname: string) returns (key: Option<Digest>)
      ensures key == Lookup(norm, Tables(), hostname)
    {
      var host := norm(hostname);
      if host.None? || host.value !in agents || agents[host.value].revokedAt.Some? {
        return None;
      }
      return Some(agents[host.value].secretHash);
    }
  }

  /** Fewer bytes than the 64 hex digits of a digest. */
  type Short = n: nat | n < 64

  /**
   * What a signing key file holds: the whole derived key, or the first bytes of it. The file is written in place, so a
   * full disk or a crash can cut it short.
   */
  datatype Key = Whole(digest: Digest) | Torn(digest: Digest, length: Short)

  /** How writing the key file ends; all but Done are reported as an error, or are a crash. */
  datatype Write = NotCreated | Cut(length: Short) | Unreported | Done

  /** What happens around an exchange: whether an existing file reads, the response arrives, and the file is written. */
  datatype Luck = Luck(readable: bool, delivered: bool, write: Write)

  /** The key file after the write. */
  function Written(d: Digest, write: Write): Option<Key> {
    match write
    case NotCreated => None
    case Cut(n) => Some(Torn(d, n))
    case _ => Some(Whole(d))
  }

  /**
   * EnsureSecret: the core and the key file afterwards, and the key returned. A key file, once there, wins over any
   * token, whatever it holds; otherwise one exchange, and the key is the secret's digest.
   */
  function Ensured(norm: Normaliser, c: Core, file: Option<Key>, hostname: string, token: string, secret: string,
                   luck: Luck, now: int):
    (Core, Option<Key>, Option<Key>)
  {
    if !luck.readable then (c, file, None)
    else if file.Some? || token == "" then (c, file, file)
    else
      var (d, r) := Enrol(norm, c, token, hostname, secret, now);
      if r.Refused? || !luck.delivered then (d, None, None)
      else (d, Written(Sha256(r.secret), luck.write), if luck.write.Done? then Some(Whole(Sha256(r.secret))) else None)
  }

  /**
   * What a start does: an existing file stays and is the key; otherwise one exchange, whose secret's digest is kept as
   * far as the write went and is the key only if the write was reported done.
   */
  ghost predicate EnsuredIn(norm: Normaliser, c: Core, file: Option<Key>, d: Core, kept: Option<Key>, key: Option<Key>,
                            hostname: string, token: string, secret: string, luck: Luck, now: int)
  {
    if !luck.readable then d == c && kept == file && key == None
    else if file.Some? then d == c && kept == file && key == file
    else if token == "" then d == c && kept == None && key == None
    else
      exists r :: ExchangedIn(norm, c, d, r, token, hostname, secret, now) &&
        if r.Refused? || !luck.delivered then kept == None && key == None
        else
          && key == (if luck.write.Done? then Some(Whole(Sha256(secret))) else None)
          && match luck.write
             case NotCreated => kept == None
             case Cut(n) => kept == Some(Torn(Sha256(secret), n))
             case _ => kept == Some(Whole(Sha256(secret)))
  }

  lemma StartDoes(norm: Normaliser, c: Core, file: Option<Key>, hostname: string, token: string, secret: string,
                  luck: Luck, now: int)
    ensures var (d, kept, key) := Ensured(norm, c, file, hostname, token, secret, luck, now);
            EnsuredIn(norm, c, file, d, kept, key, hostname, token, secret, luck, now)
  {
    OperationsDo(norm, c, token, hostname, secret, 0, now);
    var (d, r) := Enrol(norm, c, token, hostname, secret, now);
    assert ExchangedIn(norm, c, d, r, token, hostname, secret, now);
    hide Enrol, Issue, Revoke;
  }

  /** An agent process and its key file. */
  class AgentProcess {
    const hostname: string
    var file: Option<Key>

    constructor (hostname: string)
      ensures this.hostname == hostname && file == None
    {
      this.hostname, file := hostname, None;
    }

    method EnsureSecret(core: Store, token: string, secret: string, luck: Luck, now: int) returns (key: Option<Key>)
      modifies this, core
      ensures (core.Tables(), file, key) ==
              Ensured(core.norm, old(core.Tables()), old(file), hostname, token, secret, luck, now)
      ensures EnsuredIn(core.norm, old(core.Tables()), old(file), core.Tables(), file, key, hostname, token, secret,
              luck,
                        now)
    {
      StartDoes(core.norm, core.Tables(), file, hostname, token, secret, luck, now);
      hide EnsuredIn;
      if !luck.readable {
        return None;
      }
      if file.Some? {
        return file;
      }
      if token == "" {
        return None;
      }
      var r := core.EnrolAgent(token, hostname, secret, now);
      if r.Refused? || !luck.delivered {
        return None;
      }
      var derived := Sha256(r.secret);
      match luck.write {
        case NotCreated => return None;
        case Cut(n) => file := Some(Torn(derived, n)); return None;
        case Unreported => file := Some(Whole(derived)); return None;
        case Done => file := Some(Whole(derived)); return file;
      }
    }
  }

  // ----- Runs -----

  /** The core and the key file of each configured agent. */
  datatype World = World(core: Core, files: map<string, Key>)

  datatype Op =
    | IssueToken(token: string, ttl: int)
    | Exchange(hostname: string, token: string, secret: string, luck: Luck)
    | RevokeHost(hostname: string)

  datatype Event = Event(op: Op, now: int)

  function FileOf(w: World, hostname: string): Option<Key> {
    if hostname in w.files then Some(w.files[hostname]) else None
  }

  function Next(norm: Normaliser, w: World, e: Event): World {
    match e.op
    case IssueToken(token, ttl) => w.(core := Issue(w.core, token, ttl, e.now))
    case RevokeHost(hostname) => w.(core := Revoke(norm, w.core, hostname, e.now))
    case Exchange(hostname, token, secret, luck) =>
      var (c, file, _) := Ensured(norm, w.core, FileOf(w, hostname), hostname, token, secret, luck, e.now);
      World(c, if file.Some? then w.files[hostname := file.value] else w.files)
  }

  function After(norm: Normaliser, w: World, es: seq<Event>): World
    decreases |es|
  {
    if es == [] then w else After(norm, Next(norm, w, es[0]), es[1..])
  }

  /** e made an agent: its exchange reached the core and was accepted. */
  predicate Succeeds(norm: Normaliser, w: World, e: Event) {
    e.op.Exchange? && e.op.luck.readable && e.op.hostname !in w.files && e.op.token != ""
    && Enrol(norm, w.core, e.op.token, e.op.hostname, e.op.secret, e.now).1.Enrolled?
  }

  predicate Used(c: Core, token: string) {
    Sha256(token) in c.tokens && c.tokens[Sha256(token)].usedAt.Some?
  }

  /**
   * A used token stays used, an agent stays enrolled under its key, a revoked one stays revoked as of the first time.
   */
  predicate Lasting(c: Core, d: Core) {
    && (forall t :: t in c.tokens && c.tokens[t].usedAt.Some? ==>
        t in d.tokens && d.tokens[t].usedAt == c.tokens[t].usedAt)
    && (forall h :: h in c.agents ==> h in d.agents && d.agents[h].secretHash == c.agents[h].secretHash)
    && (forall h :: h in c.agents && c.agents[h].revokedAt.Some? ==> d.agents[h].revokedAt == c.agents[h].revokedAt)
  }

  lemma EnrolLasts(norm: Normaliser, c: Core, token: string, hostname: string, secret: string, now: int)
    ensures Lasting(c, Enrol(norm, c, token, hostname, secret, now).0)
  {
  }

  lemma StepLasts(norm: Normaliser, w: World, e: Event)
    ensures Lasting(w.core, Next(norm, w, e).core)
  {
    match e.op
    case IssueToken(_, _) =>
    case RevokeHost(_) =>
    case Exchange(hostname, token, secret, luck) =>
      hide Enrol;
      EnrolLasts(norm, w.core, token, hostname, secret, e.now);
  }

  /** The key file of h holds what the core keeps for that host. */
  predicate Agrees(norm: Normaliser, w: World, h: string) {
    h in w.files && norm(h).Some? && norm(h).value in w.core.agents
    && w.files[h] == Whole(w.core.agents[norm(h).value].secretHash)
  }

  /** Every key file was derived from what the core keeps for its host, and agrees with it unless it was cut short. */
  predicate Derived(norm: Normaliser, w: World) {
    forall h :: h in w.files ==>
      norm(h).Some? && norm(h).value in w.core.agents && w.files[h].digest == w.core.agents[norm(h).value].secretHash
  }

  lemma StaysDerived(norm: Normaliser, w: World, e: Event)
    requires Derived(norm, w)
    ensures Derived(norm, Next(norm, w, e))
  {
    StepLasts(norm, w, e);
    match e.op
    case IssueToken(_, _) => hide Issue;
    case RevokeHost(_) => hide Revoke;
    case Exchange(_, _, _, _) =>
  }

  lemma {:induction false} AlwaysDerived(norm: Normaliser, w: World, es: seq<Event>)
    requires Derived(norm, w)
    ensures Derived(norm, After(norm, w, es))
    decreases |es|
  {
    if es != [] {
      StaysDerived(norm, w, es[0]);
      AlwaysDerived(norm, Next(norm, w, es[0]), es[1..]);
    }
  }

  function Fresh(): World {
    World(Core(map[], map[]), map[])
  }

  /** In every run a key file agrees with the core exactly if it was not cut short. */
  lemma KeysAgreeUnlessTorn(norm: Normaliser, es: seq<Event>, h: string)
    requires h in After(norm, Fresh(), es).files
    ensures var w := After(norm, Fresh(), es); Agrees(norm, w, h) <==> w.files[h].Whole?
  {
    AlwaysDerived(norm, Fresh(), es);
  }

  /** A key file never changes once it is there: a torn one is not repaired. */
  lemma {:induction false} FilesStay(norm: Normaliser, w: World, es: seq<Event>, h: string)
    requires h in w.files
    ensures h in After(norm, w, es).files && After(norm, w, es).files[h] == w.files[h]
    decreases |es|
  {
    if es != [] {
      FilesStay(norm, Next(norm, w, es[0]), es[1..], h);
    }
  }

  lemma {:induction false} RunLasts(norm: Normaliser, w: World, es: seq<Event>)
    ensures Lasting(w.core, After(norm, w, es).core)
    decreases |es|
  {
    if es != [] {
      StepLasts(norm, w, es[0]);
      RunLasts(norm, Next(norm, w, es[0]), es[1..]);
    }
  }

  /** Two exchanges that succeed in one run used different tokens and enrolled different hosts. */
  lemma TokensBackOneAgent(norm: Normaliser, w: World, e: Event, between: seq<Event>, f: Event)
    requires Succeeds(norm, w, e) && Succeeds(norm, After(norm, Next(norm, w, e), between), f)
    ensures e.op.token != f.op.token && norm(e.op.hostname) != norm(f.op.hostname)
  {
    var v := Next(norm, w, e);
    assert Used(v.core, e.op.token) && norm(e.op.hostname).value in v.core.agents;
    RunLasts(norm, v, between);
    assert Used(After(norm, v, between).core, e.op.token);
  }

  /** Once revoked, a host has no key, whatever happens next. */
  lemma RevocationIsPermanent(norm: Normaliser, w: World, hostname: string, es: seq<Event>)
    requires norm(hostname).Some? && norm(hostname).value in w.core.agents
    requires w.core.agents[norm(hostname).value].revokedAt.Some?
    ensures Lookup(norm, After(norm, w, es).core, hostname) == None
  {
    RunLasts(norm, w, es);
  }

  /** Token t was issued by one of es, and ends with the lifetime it was given. */
  predicate IssuedIn(t: Digest, expiresAt: int, es: seq<Event>) {
    exists e :: e in es && e.op.IssueToken? && e.op.ttl > 0 && Sha256(e.op.token) == t && expiresAt == e.now + e.op.ttl
  }

  predicate AllIssued(c: Core, es: seq<Event>) {
    forall t :: t in c.tokens ==> IssuedIn(t, c.tokens[t].expiresAt, es)
  }

  lemma TokensKeepDeadline(norm: Normaliser, w: World, e: Event, t: Digest)
    requires t in w.core.tokens
    ensures t in Next(norm, w, e).core.tokens && Next(norm, w, e).core.tokens[t].expiresAt == w.core.tokens[t].expiresAt
  {
  }

  lemma TokensComeFromIssue(norm: Normaliser, w: World, e: Event, t: Digest)
    requires t !in w.core.tokens && t in Next(norm, w, e).core.tokens
    ensures e.op.IssueToken? && e.op.ttl > 0 && Sha256(e.op.token) == t
    ensures Next(norm, w, e).core.tokens[t].expiresAt == e.now + e.op.ttl
  {
  }

  lemma IssueKnown(norm: Normaliser, w: World, before: seq<Event>, e: Event)
    requires AllIssued(w.core, before)
    ensures AllIssued(Next(norm, w, e).core, before + [e])
  {
    hide Revoke;
    var d := Next(norm, w, e).core;
    forall t | t in d.tokens ensures IssuedIn(t, d.tokens[t].expiresAt, before + [e]) {
      if t in w.core.tokens {
        var i :| i in before && i.op.IssueToken? && i.op.ttl > 0 && Sha256(i.op.token) == t
          && w.core.tokens[t].expiresAt == i.now + i.op.ttl;
        assert i in before + [e];
        assert d.tokens[t].expiresAt == w.core.tokens[t].expiresAt by { TokensKeepDeadline(norm, w, e, t); }
      } else {
        TokensComeFromIssue(norm, w, e, t);
        assert e in before + [e];
      }
    }
  }

  lemma {:induction false} AlwaysIssued(norm: Normaliser, w: World, before: seq<Event>, es: seq<Event>)
    requires AllIssued(w.core, before)
    ensures AllIssued(After(norm, w, es).core, before + es)
    decreases |es|
  {
    if es == [] {
      assert before + es == before;
    } else {
      IssueKnown(norm, w, before, es[0]);
      AlwaysIssued(norm, Next(norm, w, es[0]), before + [es[0]], es[1..]);
      assert before + [es[0]] + es[1..] == before + es;
    }
  }

  /** An exchange succeeds only with a token issued earlier in the run, within that token's lifetime. */
  lemma TokensAreInTime(norm: Normaliser, es: seq<Event>, f: Event)
    requires Succeeds(norm, After(norm, Fresh(), es), f)
    ensures exists e :: e in es && e.op.IssueToken? && e.op.token == f.op.token && f.now <= e.now + e.op.ttl
  {
    var start := Fresh();
    AlwaysIssued(norm, start, [], es);
    assert [] + es == es;
    var c := After(norm, start, es).core;
    assert IssuedIn(Sha256(f.op.token), c.tokens[Sha256(f.op.token)].expiresAt, es);
    var e :| e in es && e.op.IssueToken? && e.op.ttl > 0 && Sha256(e.op.token) == Sha256(f.op.token)
      && c.tokens[Sha256(f.op.token)].expiresAt == e.now + e.op.ttl;
  }

  function UsedTokens(c: Core): set<Digest> {
    set t | t in c.tokens && c.tokens[t].usedAt.Some?
  }

  predicate Balanced(c: Core) {
    |UsedTokens(c)| == |c.agents|
  }

  lemma EnrolBalances(norm: Normaliser, c: Core, token: string, hostname: string, secret: string, now: int)
    requires Balanced(c)
    ensures Balanced(Enrol(norm, c, token, hostname, secret, now).0)
  {
    var (d, r) := Enrol(norm, c, token, hostname, secret, now);
    if r.Enrolled? {
      assert UsedTokens(d) == UsedTokens(c) + {Sha256(token)};
      assert d.agents.Keys == c.agents.Keys + {r.hostname};
    }
  }

  lemma IssueBalances(c: Core, token: string, ttl: int, now: int)
    requires Balanced(c)
    ensures Balanced(Issue(c, token, ttl, now))
  {
    assert UsedTokens(Issue(c, token, ttl, now)) == UsedTokens(c);
  }

  lemma RevokeBalances(norm: Normaliser, c: Core, hostname: string, now: int)
    requires Balanced(c)
    ensures Balanced(Revoke(norm, c, hostname, now))
  {
    assert UsedTokens(Revoke(norm, c, hostname, now)) == UsedTokens(c);
    assert Revoke(norm, c, hostname, now).agents.Keys == c.agents.Keys;
  }

  /** There are exactly as many agents as spent tokens, in every run. */
  lemma {:induction false} AgentsMatchTokens(norm: Normaliser, w: World, es: seq<Event>)
    requires Balanced(w.core)
    ensures Balanced(After(norm, w, es).core)
    decreases |es|
  {
    if es != [] {
      hide Balanced, Enrol, Issue, Revoke;
      match es[0].op {
        case IssueToken(t, ttl) => IssueBalances(w.core, t, ttl, es[0].now);
        case RevokeHost(h) => RevokeBalances(norm, w.core, h, es[0].now);
        case Exchange(h, t, s, _) => EnrolBalances(norm, w.core, t, h, s, es[0].now);
      }
      AgentsMatchTokens(norm, Next(norm, w, es[0]), es[1..]);
    }
  }

  // ----- Signed requests -----

  const SECOND := 1_000_000_000
  const MAX_CLOCK_SKEW := 300 * SECOND

  /** A timestamp header: RFC 3339 to the second, or text that does not parse. */
  datatype Stamp = At(second: int) | Garbled(text: string)

  /** HMAC-SHA256 as an injective constructor; None is a header that is not base64. */
  datatype Mac = Hmac(key: Key, stamp: Stamp, body: string)

  function Sign(key: Key, body: string, now: int): (Stamp, Option<Mac>) {
    (At(now / SECOND), Some(Hmac(key, At(now / SECOND), body)))
  }

  datatype Check = Accepted | BadSignature | Skew | UnknownHost

  function Verify(key: Option<Digest>, body: string, stamp: Stamp, signature: Option<Mac>, now: int): Check {
    if key.None? then UnknownHost
    else if stamp.Garbled? then Skew
    else
      var delta := now - stamp.second * SECOND;
      if (if delta < 0 then -delta else delta) > MAX_CLOCK_SKEW then Skew
      else if signature != Some(Hmac(Whole(key.value), stamp, body)) then BadSignature
      else Accepted
  }

  /**
   * Revoking an enrolled host takes its key away for good: in every later state the core has none for it, refuses
   * whatever is signed for it, and still knows when it was first revoked.
   */
  lemma RevokedIsRefused(norm: Normaliser, w: World, hostname: string, now: int, es: seq<Event>, body: string,
                         stamp: Stamp, signature: Option<Mac>, at: int)
    requires norm(hostname).Some? && norm(hostname).value in w.core.agents
    ensures var host := norm(hostname).value;
            var v := After(norm, Next(norm, w, Event(RevokeHost(hostname), now)), es);
            && Lookup(norm, v.core, hostname) == None
            && Verify(Lookup(norm, v.core, hostname), body, stamp, signature, at) != Accepted
            && host in v.core.agents
            && v.core.agents[host].revokedAt ==
               (if w.core.agents[host].revokedAt.Some? then w.core.agents[host].revokedAt else Some(now))
  {
    OperationsDo(norm, w.core, "", hostname, "", 0, now);
    RunLasts(norm, Next(norm, w, Event(RevokeHost(hostname), now)), es);
  }

  /** The run in which agreement fails: the key file's write is cut short, and every later start signs with the rest. */
  lemma TornKeyIsRefused(norm: Normaliser, h: string, token: string, secret: string, n: Short, later: seq<Event>,
                         body: string, signedAt: int, now: int)
    requires norm(h).Some? && token != ""
    ensures var es := [Event(IssueToken(token, 10), 0), Event(Exchange(h, token, secret, Luck(true, true, Cut(n))), 1)];
            var w := After(norm, After(norm, Fresh(), es), later);
            && h in w.files && w.files[h] == Torn(Sha256(secret), n) && !Agrees(norm, w, h)
            && Ensured(norm, w.core, FileOf(w, h), h, token, secret, Luck(true, true, Done), now).2 == Some(w.files[h])
            && var (stamp, mac) := Sign(w.files[h], body, signedAt);
               Verify(Lookup(norm, w.core, h), body, stamp, mac, now) != Accepted
  {
    var issue, exchange := Event(IssueToken(token, 10), 0),
      Event(Exchange(h, token, secret, Luck(true, true, Cut(n))), 1);
    var es := [issue, exchange];
    assert es[1..] == [exchange];
    var w1 := Next(norm, Fresh(), issue);
    assert After(norm, w1, [exchange]) == Next(norm, w1, exchange) by { assert |[exchange][1..]| == 0; }
    assert After(norm, Fresh(), es) == Next(norm, w1, exchange);
    FilesStay(norm, Next(norm, w1, exchange), later, h);
  }

  /** Only a revocation takes a key away. */
  lemma {:induction false} KeyStays(norm: Normaliser, w: World, es: seq<Event>, host: string)
    requires host in w.core.agents && forall e :: e in es ==> !e.op.RevokeHost?
    ensures host in After(norm, w, es).core.agents && After(norm, w, es).core.agents[host] == w.core.agents[host]
    decreases |es|
  {
    if es != [] {
      assert es[0] in es;
      KeyStays(norm, Next(norm, w, es[0]), es[1..], host);
    }
  }

  /**
   * An agent that exchanges a token in time, with a new host name and a file system that works, gets a key file, and
   * what it signs from then on is accepted within the clock's tolerance, as long as nobody revokes it.
   */
  lemma EnrolledIsAccepted(norm: Normaliser, w: World, hostname: string, token: string, ttl: int, secret: string,
                           issued: int, now: int, es: seq<Event>, body: string, signedAt: int, at: int)
    requires norm(hostname).Some? && norm(hostname).value !in w.core.agents && hostname !in w.files
    requires token != "" && Sha256(token) !in w.core.tokens && ttl > 0 && now <= issued + ttl
    requires forall e :: e in es ==> !e.op.RevokeHost?
    requires -300_000_000_000 <= at - signedAt / 1_000_000_000 * 1_000_000_000 <= 300_000_000_000
    ensures var enrolled := Next(norm, Next(norm, w, Event(IssueToken(token, ttl), issued)),
                                 Event(Exchange(hostname, token, secret, Luck(true, true, Done)), now));
            var v := After(norm, enrolled, es);
            && hostname in v.files && v.files[hostname] == Whole(Sha256(secret))
            && var (stamp, mac) := Sign(v.files[hostname], body, signedAt);
               Verify(Lookup(norm, v.core, hostname), body, stamp, mac, at) == Accepted
  {
    var tokened := Next(norm, w, Event(IssueToken(token, ttl), issued));
    OperationsDo(norm, w.core, token, "", "", ttl, issued);
    OperationsDo(norm, tokened.core, token, hostname, secret, 0, now);
    var enrolled := Next(norm, tokened, Event(Exchange(hostname, token, secret, Luck(true, true, Done)), now));
    FilesStay(norm, enrolled, es, hostname);
    KeyStays(norm, enrolled, es, norm(hostname).value);
  }

  /**
   * In every run, what an agent signs with its key file is accepted exactly when the file is whole, the host is not
   * revoked and the core's clock is within five minutes of the signing time cut to whole seconds.
   */
  lemma SignedIsAccepted(norm: Normaliser, es: seq<Event>, hostname: string, body: string, signedAt: int, now: int)
    requires hostname in After(norm, Fresh(), es).files
    ensures var w := After(norm, Fresh(), es);
            var (stamp, signature) := Sign(w.files[hostname], body, signedAt);
            norm(hostname).Some? && norm(hostname).value in w.core.agents &&
            (Verify(Lookup(norm, w.core, hostname), body, stamp, signature, now) == Accepted <==>
             w.files[hostname].Whole? && w.core.agents[norm(hostname).value].revokedAt.None?
             && -300_000_000_000 <= now - signedAt / 1_000_000_000 * 1_000_000_000 <= 300_000_000_000)
  {
    AlwaysDerived(norm, Fresh(), es);
  }

  /** Nothing but the header pair that key's holder signed for that body is accepted. */
  lemma OnlySignedIsAccepted(key: Digest, body: string, stamp: Stamp, signature: Option<Mac>, now: int, holder: Key,
                             signed: string, at: int)
    requires signature == Sign(holder, signed, at).1
    ensures Verify(Some(key), body, stamp, signature, now) == Accepted ==>
              Whole(key) == holder && body == signed && stamp == Sign(holder, signed, at).0
  {
  }
}
