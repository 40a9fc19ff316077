/** The pending-login map of the OIDC gate (internal/ui/auth.go). Times are nanoseconds. */
module PendingLogins {
  import opened Sequences

  const TTL := 600_000_000_000

  datatype Flow = Flow(nonce: string, expiresAt: int)

  type Pending = map<string, Flow>

  datatype Op = Put(state: string, nonce: string) | Take(state: string)

  datatype Event = Event(op: Op, now: int)

  predicate Live(f: Flow, now: int) {
    now <= f.expiresAt
  }

  function Swept(p: Pending, now: int): Pending {
    map k | k in p && Live(p[k], now) :: p[k]
  }

  function Next(p: Pending, e: Event): Pending {
    match e.op
    case Put(state, nonce) => Swept(p, e.now)[state := Flow(nonce, e.now + TTL)]
    case Take(state) => p - {state}
  }

  /** The map that is never swept. */
  function Unswept(p: Pending, e: Event): Pending {
    match e.op
    case Put(state, nonce) => p[state := Flow(nonce, e.now + TTL)]
    case Take(state) => p - {state}
  }

  /** The nonce a take hands out; nothing for a put. */
  function Taken(p: Pending, e: Event): Option<string> {
    if e.op.Take? && e.op.state in p && Live(p[e.op.state], e.now) then Some(p[e.op.state].nonce) else None
  }

  class AuthGate {
    var pending: Pending

    method PutPending(state: string, nonce: string, now: int)
      modifies this
      ensures pending == Next(old(pending), Event(Put(state, nonce), now))
      ensures state in pending && pending[state] == Flow(nonce, now + 600_000_000_000)
      ensures forall k :: k != state ==>
                (k in pending <==> k in old(pending) && now <= old(pending)[k].expiresAt)
                && (k in pending ==> pending[k] == old(pending)[k])
    {
      ghost var before := pending;
      var left := pending.Keys;
      while left != {}
        invariant left <= pending.Keys <= before.Keys
        invariant forall k :: k in before ==> (k in pending <==> k in left || Live(before[k], now))
        invariant forall k :: k in pending ==> pending[k] == before[k]
        decreases left
      {
        var k :| k in left;
        left := left - {k};
        if now > pending[k].expiresAt {
          pending := pending - {k};
        }
      }
      assert pending == Swept(before, now);
      pending := pending[state := Flow(nonce, now + TTL)];
    }

    method TakePending(state: string, now: int) returns (nonce: Option<string>)
      modifies this
      ensures pending == Next(old(pending), Event(Take(state), now))
      ensures nonce == Taken(old(pending), Event(Take(state), now))
      ensures pending == old(pending) - {state}
      ensures nonce == if state in old(pending) && now <= old(pending)[state].expiresAt
                       then Some(old(pending)[state].nonce) else None
    {
      if state !in pending {
        return None;
      }
      var pf := pending[state];
      pending := pending - {state};
      if now > pf.expiresAt {
        return None;
      }
      return Some(pf.nonce);
    }
  }

  // ----- Runs -----

  function Answers(p: Pending, es: seq<Event>): (r: seq<Option<string>>)
    ensures |r| == |es|
    decreases |es|
  {
    if es == [] then [] else [Taken(p, es[0])] + Answers(Next(p, es[0]), es[1..])
  }

  function UnsweptAnswers(p: Pending, es: seq<Event>): seq<Option<string>>
    decreases |es|
  {
    if es == [] then [] else [Taken(p, es[0])] + UnsweptAnswers(Unswept(p, es[0]), es[1..])
  }

  predicate Monotone(es: seq<Event>, now: int) {
    es == [] || (now <= es[0].now && Monotone(es[1..], es[0].now))
  }

  /** p is u without some entries that have expired by now. */
  predicate SweptFrom(p: Pending, u: Pending, now: int) {
    && (forall k :: k in p ==> k in u && p[k] == u[k])
    && (forall k :: k in u && k !in p ==> !Live(u[k], now))
  }

  /** The sweep changes no take's answer. */
  lemma {:induction false} SweepIsUnobservable(p: Pending, u: Pending, es: seq<Event>, now: int)
    requires SweptFrom(p, u, now) && Monotone(es, now)
    ensures Answers(p, es) == UnsweptAnswers(u, es)
    decreases |es|
  {
    if es != [] {
      SweepIsUnobservable(Next(p, es[0]), Unswept(u, es[0]), es[1..], es[0].now);
    }
  }

  /** How many pending entries hold nonce n. */
  function Held(p: Pending, n: string): nat {
    |set k | k in p && p[k].nonce == n|
  }

  function Puts(n: string): Event -> bool {
    (e: Event) => e.op.Put? && e.op.nonce == n
  }

  function Hands(n: string): Option<string> -> bool {
    (a: Option<string>) => a == Some(n)
  }

  lemma HeldStep(p: Pending, e: Event, n: string)
    ensures Held(Next(p, e), n) + (if Taken(p, e) == Some(n) then 1 else 0) <= Held(p, n) + if Puts(n)(e) then 1 else 0
  {
    var keys, after := set k | k in p && p[k].nonce == n, set k | k in Next(p, e) && Next(p, e)[k].nonce == n;
    if Puts(n)(e) {
      assert after <= keys + {e.op.state};
      SubsetSize(after, keys + {e.op.state});
    } else if Taken(p, e) == Some(n) {
      assert after <= keys - {e.op.state} && e.op.state in keys;
      SubsetSize(after, keys - {e.op.state});
    } else {
      assert after <= keys;
      SubsetSize(after, keys);
    }
  }

  /** A nonce is handed out no more often than it was recorded. */
  lemma {:induction false} NoncesAreSpentOnce(p: Pending, es: seq<Event>, n: string)
    ensures Count(Answers(p, es), Hands(n)) <= Held(p, n) + Count(es, Puts(n))
    decreases |es|
  {
    if es != [] {
      HeldStep(p, es[0], n);
      NoncesAreSpentOnce(Next(p, es[0]), es[1..], n);
      assert Answers(p, es)[1..] == Answers(Next(p, es[0]), es[1..]);
    }
  }

  /** Entry k of the map comes from one of the events, or was there before. */
  predicate From(k: string, f: Flow, es: seq<Event>) {
    exists e :: e in es && e.op == Put(k, f.nonce) && f.expiresAt == e.now + TTL
  }

  /** A nonce is handed out only for the state it was recorded under, and within ten minutes of that. */
  lemma {:induction false} NoncesAreInTime(p: Pending, before: seq<Event>, es: seq<Event>, i: nat)
    requires i < |es| && Answers(p, es)[i].Some? && forall k :: k in p ==> From(k, p[k], before)
    ensures exists e :: && e in before + es[..i] && e.op == Put(es[i].op.state, Answers(p, es)[i].value)
                        && es[i].now <= e.now + TTL
    decreases |es|
  {
    if i > 0 {
      var q := Next(p, es[0]);
      forall k | k in q ensures From(k, q[k], before + [es[0]]) {
        if k in p && q[k] == p[k] {
          var e :| e in before && e.op == Put(k, p[k].nonce) && p[k].expiresAt == e.now + TTL;
          assert e in before + [es[0]];
        } else {
          assert es[0] in before + [es[0]];
        }
      }
      NoncesAreInTime(q, before + [es[0]], es[1..], i - 1);
      assert before + [es[0]] + es[1..][..i - 1] == before + es[..i];
    } else {
      var e :| e in before && e.op == Put(es[0].op.state, p[es[0].op.state].nonce)
        && p[es[0].op.state].expiresAt == e.now + TTL;
      assert e in before + es[..0];
    }
  }

  // ----- A login in time -----

  function Final(p: Pending, es: seq<Event>): Pending
    decreases |es|
  {
    if es == [] then p else Final(Next(p, es[0]), es[1..])
  }

  lemma {:induction false} EntryStays(p: Pending, es: seq<Event>, state: string, f: Flow)
    requires state in p && p[state] == f
    requires forall e :: e in es ==> e.op.state != state && e.now <= f.expiresAt
    ensures state in Final(p, es) && Final(p, es)[state] == f
    decreases |es|
  {
    if es != [] {
      assert es[0] in es;
      EntryStays(Next(p, es[0]), es[1..], state, f);
    }
  }

  lemma {:induction false} AbsentStays(p: Pending, es: seq<Event>, state: string)
    requires state !in p && forall e :: e in es ==> e.op.state != state
    ensures state !in Final(p, es)
    decreases |es|
  {
    if es != [] {
      assert es[0] in es;
      AbsentStays(Next(p, es[0]), es[1..], state);
    }
  }

  lemma {:induction false} EntryStaysOrGoes(p: Pending, es: seq<Event>, state: string, f: Flow)
    requires state in p ==> p[state] == f
    requires forall e :: e in es ==> e.op.state != state
    ensures state in Final(p, es) ==> Final(p, es)[state] == f
    decreases |es|
  {
    if es != [] {
      assert es[0] in es;
      EntryStaysOrGoes(Next(p, es[0]), es[1..], state, f);
    }
  }

  /**
   * After the last put of a state the next take of it answers that put's nonce exactly if it comes within ten minutes,
   * and a take after that answers nothing, whatever happens to other states.
   */
  lemma TakeAnswersLastPut(p: Pending, state: string, nonce: string, put: int, es: seq<Event>, now: int,
                           later: seq<Event>, again: int)
    requires forall e :: e in es ==> e.op.state != state && e.now <= now
    requires forall e :: e in later ==> e.op.state != state
    ensures var before := Final(Next(p, Event(Put(state, nonce), put)), es);
            var after := Final(Next(before, Event(Take(state), now)), later);
            && Taken(before, Event(Take(state), now)) == (if now - put <= 600_000_000_000 then Some(nonce) else None)
            && Taken(after, Event(Take(state), again)) == None
  {
    var start := Next(p, Event(Put(state, nonce), put));
    assert start[state] == Flow(nonce, put + TTL);
    var before := Final(start, es);
    if now - put <= 600_000_000_000 {
      EntryStays(start, es, state, Flow(nonce, put + TTL));
    } else {
      EntryStaysOrGoes(start, es, state, Flow(nonce, put + TTL));
    }
    AbsentStays(Next(before, Event(Take(state), now)), later, state);
  }
}
