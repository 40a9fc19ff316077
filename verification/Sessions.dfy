/** UI sessions with lazy expiry (internal/store/session.go). Times are nanoseconds. */
module Sessions {
  import opened Sequences

  datatype Session = Session(
    id: string, subject: string, email: string, name: string, accessToken: string, refreshToken: string,
    tokenExpiry: int, lastValidatedAt: int, expiresAt: int, createdAt: int)

  type Rows = map<string, Session>

  predicate Expired(s: Session, now: int) {
    now > s.expiresAt
  }

  function Refreshed(row: Session, sess: Session, now: int): Session {
    row.(accessToken := sess.accessToken, refreshToken := sess.refreshToken, tokenExpiry := sess.tokenExpiry,
         lastValidatedAt := now)
  }

  /** What a caller can do. A failed lazy delete is ignored by the source; Purge may run at any time. */
  datatype Op =
    | Create(sess: Session) | Get(id: string, deleteFails: bool) | Refresh(sess: Session) | Delete(id: string) | Purge

  datatype Event = Event(op: Op, now: int)

  datatype Answer = Made(ok: bool) | Got(session: Option<Session>) | Done

  /** What never depends on expired rows being gone: everything but the deletions that expiry causes. */
  function Answered(rows: Rows, e: Event): Answer {
    match e.op
    case Create(s) => Made(s.id != "" && s.id !in rows)
    case Get(id, _) => Got(if id in rows && !Expired(rows[id], e.now) then Some(rows[id]) else None)
    case _ => Done
  }

  /** The store that never deletes a row because it expired. */
  function Kept(rows: Rows, e: Event): Rows {
    match e.op
    case Create(s) =>
      if s.id != "" && s.id !in rows then rows[s.id := s.(createdAt := e.now, lastValidatedAt := e.now)] else rows
    case Get(_, _) => rows
    case Refresh(s) => if s.id in rows then rows[s.id := Refreshed(rows[s.id], s, e.now)] else rows
    case Delete(id) => rows - {id}
    case Purge => rows
  }

  /** The store as it is. */
  function Next(rows: Rows, e: Event): Rows {
    match e.op
    case Get(id, deleteFails) => if id in rows && Expired(rows[id], e.now) && !deleteFails then rows - {id} else rows
    case Purge => map id | id in rows && !Expired(rows[id], e.now) :: rows[id]
    case _ => Kept(rows, e)
  }

  predicate SameIdentity(a: Session, b: Session) {
    a.id == b.id && a.subject == b.subject && a.email == b.email && a.name == b.name
    && a.expiresAt == b.expiresAt && a.createdAt == b.createdAt
  }

  class Store {
    var rows: Rows

    method CreateSession(sess: Session, now: int) returns (ok: bool)
      modifies this
      ensures rows == Next(old(rows), Event(Create(sess), now))
              && Made(ok) == Answered(old(rows), Event(Create(sess), now))
      ensures ok <==> sess.id != "" && sess.id !in old(rows)
      ensures !ok ==> rows == old(rows)
      ensures ok ==> rows == old(rows)[sess.id := sess.(createdAt := now, lastValidatedAt := now)]
    {
      if sess.id == "" || sess.id in rows {
        return false;
      }
      rows := rows[sess.id := sess.(createdAt := now, lastValidatedAt := now)];
      return true;
    }

    method GetSession(id: string, now: int, deleteFails: bool) returns (s: Option<Session>)
      modifies this
      ensures rows == Next(old(rows), Event(Get(id, deleteFails), now))
      ensures Got(s) == Answered(old(rows), Event(Get(id, deleteFails), now))
      ensures s.Some? <==> id in old(rows) && now <= old(rows)[id].expiresAt
      ensures s.Some? ==> s.value == old(rows)[id]
      ensures rows == if id in old(rows) && now > old(rows)[id].expiresAt && !deleteFails then old(rows) - {id}
                      else old(rows)
    {
      if id !in rows {
        return None;
      }
      var sess := rows[id];
      if now > sess.expiresAt {
        if !deleteFails {
          DeleteSession(id);
        }
        return None;
      }
      return Some(sess);
    }

    method RefreshSession(sess: Session, now: int)
      modifies this
      ensures rows == Next(old(rows), Event(Refresh(sess), now))
      ensures rows.Keys == old(rows).Keys && forall id :: id in rows && id != sess.id ==> rows[id] == old(rows)[id]
      ensures sess.id in rows ==>
                var (x, row) := (rows[sess.id], old(rows)[sess.id]);
                && SameIdentity(x, row)
                && x.accessToken == sess.accessToken && x.refreshToken == sess.refreshToken
                && x.tokenExpiry == sess.tokenExpiry && x.lastValidatedAt == now
    {
      if sess.id in rows {
        rows := rows[sess.id := Refreshed(rows[sess.id], sess, now)];
      }
    }

    method DeleteSession(id: string)
      modifies this
      ensures rows == old(rows) - {id}
    {
      rows := rows - {id};
    }

    method DeleteExpiredSessions(now: int) returns (n: nat)
      modifies this
      ensures rows == Next(old(rows), Event(Purge, now)) && n + |rows| == |old(rows)|
      ensures forall id :: id in rows <==> id in old(rows) && now <= old(rows)[id].expiresAt
      ensures forall id :: id in rows ==> rows[id] == old(rows)[id]
      ensures n == |set id | id in old(rows) && old(rows)[id].expiresAt < now|
    {
      ghost var before := rows;
      var stale := set id | id in rows && rows[id].expiresAt < now;
      n := |stale|;
      rows := rows - stale;
      assert before.Keys == rows.Keys + stale;
    }
  }

  // ----- Runs -----

  function Answers(rows: Rows, es: seq<Event>): seq<Answer>
    decreases |es|
  {
    if es == [] then [] else [Answered(rows, es[0])] + Answers(Next(rows, es[0]), es[1..])
  }

  function KeptAnswers(rows: Rows, es: seq<Event>): seq<Answer>
    decreases |es|
  {
    if es == [] then [] else [Answered(rows, es[0])] + KeptAnswers(Kept(rows, es[0]), es[1..])
  }

  predicate Monotone(es: seq<Event>, now: int) {
    es == [] || (now <= es[0].now && Monotone(es[1..], es[0].now))
  }

  /** No session is created under the ID of one that has expired: fresh IDs imply it. */
  predicate NoReuse(kept: Rows, es: seq<Event>)
    decreases |es|
  {
    es == [] ||
    (!(es[0].op.Create? && es[0].op.sess.id in kept && Expired(kept[es[0].op.sess.id], es[0].now)) &&
     NoReuse(Kept(kept, es[0]), es[1..]))
  }

  /** rows is kept without some rows that have expired by now. */
  predicate Purged(rows: Rows, kept: Rows, now: int) {
    && (forall id :: id in rows ==> id in kept && rows[id] == kept[id])
    && (forall id :: id in kept && id !in rows ==> Expired(kept[id], now))
  }

  /** For two such stores an event is answered alike exactly when it does not create a session under a purged ID. */
  lemma AnsweredAlike(rows: Rows, kept: Rows, e: Event, now: int)
    requires Purged(rows, kept, now) && now <= e.now
    ensures Answered(rows, e) == Answered(kept, e) <==>
            !(e.op.Create? && e.op.sess.id != "" && e.op.sess.id in kept && e.op.sess.id !in rows)
  {
  }

  lemma StaysPurged(rows: Rows, kept: Rows, e: Event, now: int)
    requires Purged(rows, kept, now) && now <= e.now
    requires !(e.op.Create? && e.op.sess.id in kept && Expired(kept[e.op.sess.id], e.now))
    ensures Purged(Next(rows, e), Kept(kept, e), e.now)
  {
  }

  /** Deleting expired rows, lazily or in bulk, at any times, shows in no answer. */
  lemma {:induction false} ExpiryIsUnobservable(rows: Rows, kept: Rows, es: seq<Event>, now: int)
    requires Purged(rows, kept, now) && Monotone(es, now) && NoReuse(kept, es)
    ensures Answers(rows, es) == KeptAnswers(kept, es)
    decreases |es|
  {
    if es != [] {
      AnsweredAlike(rows, kept, es[0], now);
      StaysPurged(rows, kept, es[0], now);
      ExpiryIsUnobservable(Next(rows, es[0]), Kept(kept, es[0]), es[1..], es[0].now);
    }
  }

  /** Reusing the ID of a purged session shows it. */
  lemma ReuseShows(s: Session)
    requires s.id != "" && s.expiresAt == 5
    ensures var es := [Event(Create(s), 1), Event(Purge, 6), Event(Create(s), 7)];
            Answers(map[], es) == [Made(true), Done, Made(true)]
              && KeptAnswers(map[], es) == [Made(true), Done, Made(false)]
  {
    var es := [Event(Create(s), 1), Event(Purge, 6), Event(Create(s), 7)];
    assert es[1..] == [Event(Purge, 6), Event(Create(s), 7)] && es[1..][1..] == [Event(Create(s), 7)];
    var after := Next(map[], es[0]);
    assert s.id !in Next(after, es[1]);
    assert Answers(Next(after, es[1]), es[1..][1..]) == [Made(true)];
    assert KeptAnswers(Kept(map[], es[0]), es[1..][1..]) == [Made(false)];
  }

  function Final(rows: Rows, es: seq<Event>): Rows
    decreases |es|
  {
    if es == [] then rows else Final(Next(rows, es[0]), es[1..])
  }

  lemma {:induction false} GoneStaysGone(rows: Rows, es: seq<Event>, id: string)
    requires id !in rows && forall e :: e in es ==> !(e.op.Create? && e.op.sess.id == id)
    ensures id !in Final(rows, es)
    decreases |es|
  {
    if es != [] {
      GoneStaysGone(Next(rows, es[0]), es[1..], id);
    }
  }

  /** Who a session belongs to and when it ends never change, unless it is deleted and its ID created anew. */
  lemma {:induction false} IdentityIsImmutable(rows: Rows, es: seq<Event>, id: string)
    requires id in rows && id in Final(rows, es) && forall e :: e in es ==> !(e.op.Create? && e.op.sess.id == id)
    ensures SameIdentity(rows[id], Final(rows, es)[id])
    decreases |es|
  {
    if es != [] {
      if id in Next(rows, es[0]) {
        IdentityIsImmutable(Next(rows, es[0]), es[1..], id);
      } else {
        GoneStaysGone(Next(rows, es[0]), es[1..], id);
      }
    }
  }

  // ----- A live session -----

  /** The last refresh of session id among es, if any. */
  function LastRefresh(es: seq<Event>, id: string): Option<Event> {
    if es == [] then None
    else
      var e := es[|es| - 1];
      if e.op.Refresh? && e.op.sess.id == id then Some(e) else LastRefresh(es[..|es| - 1], id)
  }

  /** x is session s as created at made, with the tokens of the last refresh. */
  predicate IsSession(x: Session, s: Session, made: int, refresh: Option<Event>) {
    && x.id == s.id && x.subject == s.subject && x.email == s.email && x.name == s.name
    && x.expiresAt == s.expiresAt && x.createdAt == made
    && match refresh
       case None =>
         && x.accessToken == s.accessToken && x.refreshToken == s.refreshToken && x.tokenExpiry == s.tokenExpiry
         && x.lastValidatedAt == made
       case Some(e) =>
         e.op.Refresh? ==>
           && x.accessToken == e.op.sess.accessToken && x.refreshToken == e.op.sess.refreshToken
           && x.tokenExpiry == e.op.sess.tokenExpiry && x.lastValidatedAt == e.now
  }

  /** Nothing in es deletes session id, and no clock in it passes end. */
  predicate Leaves(es: seq<Event>, id: string, end: int) {
    forall e :: e in es ==> e.op != Delete(id) && e.now <= end
  }

  lemma {:induction false} FinalConcat(rows: Rows, es: seq<Event>, e: Event)
    ensures Final(rows, es + [e]) == Next(Final(rows, es), e)
    decreases |es|
  {
    if es == [] {
      assert es + [e] == [e] && [e][1..] == [];
    } else {
      assert (es + [e])[1..] == es[1..] + [e];
      FinalConcat(Next(rows, es[0]), es[1..], e);
    }
  }

  lemma {:induction false} SessionStays(rows: Rows, s: Session, made: int, es: seq<Event>)
    requires s.id != "" && s.id !in rows && Leaves(es, s.id, s.expiresAt)
    ensures var after := Final(Next(rows, Event(Create(s), made)), es);
            s.id in after && IsSession(after[s.id], s, made, LastRefresh(es, s.id))
    decreases |es|
  {
    if es != [] {
      var front, e := es[..|es| - 1], es[|es| - 1];
      assert es == front + [e];
      SessionStays(rows, s, made, front);
      FinalConcat(Next(rows, Event(Create(s), made)), front, e);
    }
  }

  /**
   * A session that was created and not deleted is got until its hard expiry, with the fields it was created with and
   * the tokens of its last refresh, whatever else happens.
   */
  lemma LiveSessionIsGot(rows: Rows, s: Session, made: int, es: seq<Event>, now: int, deleteFails: bool)
    requires s.id != "" && s.id !in rows && Leaves(es, s.id, s.expiresAt)
    ensures Answered(rows, Event(Create(s), made)) == Made(true)
    ensures var after := Final(Next(rows, Event(Create(s), made)), es);
            var answer := Answered(after, Event(Get(s.id, deleteFails), now));
            answer.Got? && (answer.session.Some? <==> now <= s.expiresAt)
            && (answer.session.Some? ==> IsSession(answer.session.value, s, made, LastRefresh(es, s.id)))
  {
    SessionStays(rows, s, made, es);
  }

  /** A session that was deleted is not got until it is created again. */
  lemma DeletedIsGone(rows: Rows, id: string, at: int, es: seq<Event>, now: int, deleteFails: bool)
    requires forall e :: e in es ==> !(e.op.Create? && e.op.sess.id == id)
    ensures Answered(Final(Next(rows, Event(Delete(id), at)), es), Event(Get(id, deleteFails), now)) == Got(None)
  {
    GoneStaysGone(Next(rows, Event(Delete(id), at)), es, id);
  }
}
