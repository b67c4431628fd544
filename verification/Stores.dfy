/**
 The database and the two repositories that run statements against it. A method is one
 statement; OthersRun stands between two of them.
 */
module Stores {
  import opened Tables
  import opened UserKeys
  import opened MessageLog
  import opened ChatServer
  import opened ChatSessions
  import opened ChatTheorems
  import opened History
  import opened Interference

  class Database {
    var sessions: map<int, Session>
    var nextSession: int
    var log: seq<Message>
    var nextMessage: int
    const reliable: bool     // no statement ever fails
    ghost var chat: Chat     // the machine of all handlers over these tables

    ghost function View(): Db
      reads this
    {
      Db(sessions, log, nextMessage, nextSession)
    }

    // The tables are those of a reachable state of the machine.
    ghost predicate Valid()
      reads this
    {
      Reachable(chat) && chat.db == View()
    }

    constructor (reliable: bool)
      ensures Valid() && chat == INIT && this.reliable == reliable
    {
      this.reliable := reliable;
      sessions, nextSession, log, nextMessage := map[], 1, [], 1;
      chat := INIT;
      new;
      assert INIT == Run(INIT, []);
    }

    // Every other handler takes any number of steps here. The body takes none, which is one of
    // the runs allowed; callers know no more than the contract.
    method OthersRun(ghost t: nat)
      requires Valid()
      modifies this
      ensures Valid() && Interleaved(old(chat), chat, t, [])
    {
      StandsStill(chat, t);
    }

    // The statement just run is this step of the machine.
    ghost method Advance(a: Action)
      requires Reachable(chat) && Step(chat, a).db == View()
      modifies this`chat
      ensures Valid() && chat == Step(old(chat), a)
    {
      StepReachable(chat, a);
      chat := Step(chat, a);
    }
  }

  datatype Lookup = Found(sid: int) | NoneFound | LookupFailed

  lemma SomeOpen(open: set<int>)
    requires open != {}
    ensures exists sid :: sid in open
  {
    assert (forall sid :: sid !in open) ==> open == {};
  }

  datatype Assignment = Assigned | AlreadyAssigned | AssignFailed

  class SessionRepo {
    const db: Database

    constructor (db: Database)
      ensures this.db == db
    {
      this.db := db;
    }

    method FindByID(sid: int) returns (row: Option<Session>)
      ensures row.Some? ==> sid in db.sessions && row.value == db.sessions[sid]
      ensures db.reliable && sid in db.sessions ==> row.Some?
    {
      var reachable: bool := *;
      row := if (reachable || db.reliable) && sid in db.sessions then Some(db.sessions[sid]) else None;
    }

    // Newest first, among rows that are not closed; which is newest is up to the clocks.
    method FindByVisitorID(visitor: Int64) returns (r: Lookup)
      ensures r.Found? ==>
        r.sid in db.sessions && db.sessions[r.sid].visitor == visitor && db.sessions[r.sid].status != Closed
      ensures r == NoneFound ==>
        forall sid :: sid in db.sessions && db.sessions[sid].visitor == visitor ==> db.sessions[sid].status == Closed
      ensures db.reliable ==> r != LookupFailed
    {
      var open := OpenOf(db.sessions, visitor);
      var reachable: bool := *;
      if !reachable && !db.reliable {
        r := LookupFailed;
      } else if open == {} {
        assert forall sid :: sid in db.sessions ==> sid !in open;
        r := NoneFound;
      } else {
        SomeOpen(open);
        var sid: int :| sid in open;
        r := Found(sid);
      }
    }

    // An INSERT takes an id, whether or not its transaction then commits.
    method Create(tenant: string, visitor: Int64) returns (sid: Option<int>)
      modifies db`nextSession
      ensures sid.Some? ==> sid.value == old(db.nextSession) && db.nextSession == sid.value + 1
      ensures sid.None? ==> !db.reliable && db.nextSession == old(db.nextSession)
    {
      var ok: bool := *;
      if ok || db.reliable {
        sid := Some(db.nextSession);
        db.nextSession := db.nextSession + 1;
      } else {
        sid := None;
      }
    }

    // The transaction's end: the row becomes visible, or it never existed.
    method Commit(sid: int, row: Session) returns (ok: bool)
      modifies db`sessions
      ensures db.sessions == if ok then old(db.sessions)[sid := row] else old(db.sessions)
      ensures db.reliable ==> ok
    {
      ok := CommitNothing();
      if ok { db.sessions := db.sessions[sid := row]; }
    }

    // The end of a transaction that wrote nothing can fail too.
    method CommitNothing() returns (ok: bool)
      ensures db.reliable ==> ok
    {
      ok := *;
      ok := ok || db.reliable;
    }

    // UPDATE ... WHERE id = sid AND status = 'pending', judged by the rows affected.
    method AssignAgent(sid: int, agent: Int64) returns (r: Assignment)
      modifies db`sessions
      ensures r == Assigned ==> sid in old(db.sessions) && old(db.sessions)[sid].status == Pending
      ensures r == Assigned ==>
        db.sessions == old(db.sessions)[sid := old(db.sessions)[sid].(agent := agent, status := Active)]
      ensures r == AlreadyAssigned ==> sid !in old(db.sessions) || old(db.sessions)[sid].status != Pending
      ensures r != Assigned ==> db.sessions == old(db.sessions)
      ensures db.reliable ==> r != AssignFailed
    {
      var reachable: bool := *;
      if !reachable && !db.reliable {
        r := AssignFailed;
      } else if sid in db.sessions && db.sessions[sid].status == Pending {
        db.sessions := db.sessions[sid := db.sessions[sid].(agent := agent, status := Active)];
        r := Assigned;
      } else {
        r := AlreadyAssigned;
      }
    }

    method Close(sid: int, reason: string) returns (ok: bool)
      modifies db`sessions
      ensures db.sessions == if ok && sid in old(db.sessions)
        then old(db.sessions)[sid := old(db.sessions)[sid].(status := Closed, reason := reason)] else old(db.sessions)
      ensures db.reliable ==> ok
    {
      ok := *;
      ok := ok || db.reliable;
      if ok && sid in db.sessions {
        db.sessions := db.sessions[sid := db.sessions[sid].(status := Closed, reason := reason)];
      }
    }

    method UpdateLastMessage(sid: int, msgId: int) returns (ok: bool)
      modifies db`sessions
      ensures db.sessions == if ok && sid in old(db.sessions)
        then old(db.sessions)[sid := old(db.sessions)[sid].(lastMsg := msgId)] else old(db.sessions)
      ensures db.reliable ==> ok
    {
      ok := *;
      ok := ok || db.reliable;
      if ok && sid in db.sessions {
        db.sessions := db.sessions[sid := db.sessions[sid].(lastMsg := msgId)];
      }
    }

    method IncrementUnread(sid: int) returns (ok: bool)
      modifies db`sessions
      ensures db.sessions == if ok && sid in old(db.sessions)
        then old(db.sessions)[sid := old(db.sessions)[sid].(unread := old(db.sessions)[sid].unread + 1)] else old(db.sessions)
      ensures db.reliable ==> ok
    {
      ok := *;
      ok := ok || db.reliable;
      if ok && sid in db.sessions {
        db.sessions := db.sessions[sid := db.sessions[sid].(unread := db.sessions[sid].unread + 1)];
      }
    }

    method ResetUnread(sid: int) returns (ok: bool)
      modifies db`sessions
      ensures db.sessions == if ok && sid in old(db.sessions)
        then old(db.sessions)[sid := old(db.sessions)[sid].(unread := 0)] else old(db.sessions)
      ensures db.reliable ==> ok
    {
      ok := *;
      ok := ok || db.reliable;
      if ok && sid in db.sessions {
        db.sessions := db.sessions[sid := db.sessions[sid].(unread := 0)];
      }
    }
  }

  class MessageRepo {
    const db: Database

    constructor (db: Database)
      ensures this.db == db
    {
      this.db := db;
    }

    // Reads n + 1, where n counts the session's committed rows at this moment.
    method GetNextSeqNum(sid: int) returns (seqNum: Option<nat>)
      requires db.Valid()
      ensures seqNum.Some? ==> seqNum.value == |RowsOf(db.log, sid)| + 1 == MaxSeq(RowsOf(db.log, sid)) + 1
      ensures seqNum.Some? ==> forall m :: m in db.log && m.session == sid ==> 1 <= m.seqNum < seqNum.value
      ensures seqNum.Some? && seqNum.value > 1 ==>
        exists m :: m in db.log && m.session == sid && m.seqNum == seqNum.value - 1
      ensures db.reliable ==> seqNum.Some?
    {
      var reachable: bool := *;
      if reachable || db.reliable {
        RowsInOrder(db.chat, sid);
        MaxIsLength(RowsOf(db.log, sid));
        NumberingHasNoGaps(db.chat, sid);
        assert forall m :: m in db.log && m.session == sid ==> Taken(db.log, sid, m.seqNum);
        assert |RowsOf(db.log, sid)| > 0 ==> Taken(db.log, sid, |RowsOf(db.log, sid)|);
        seqNum := Some(MaxSeq(RowsOf(db.log, sid)) + 1);
      } else {
        seqNum := None;
      }
    }

    // The id an INSERT takes from the table's counter, whether or not it then commits.
    method TakeId() returns (id: int)
      modifies db`nextMessage
      ensures id == old(db.nextMessage) && db.nextMessage == id + 1
    {
      id := db.nextMessage;
      db.nextMessage := db.nextMessage + 1;
    }

    // The INSERT commits unless the unique index already holds (session, seq_num).
    method Create(row: Message) returns (ok: bool)
      modifies db`log
      ensures db.log == if ok then old(db.log) + [row] else old(db.log)
      ensures ok ==> forall m :: m in old(db.log) && m.session == row.session ==> m.seqNum != row.seqNum
      ensures db.reliable && !ok ==> exists m :: m in old(db.log) && m.session == row.session && m.seqNum == row.seqNum
    {
      var reachable: bool := *;
      ok := (reachable || db.reliable) && !Taken(db.log, row.session, row.seqNum);
      if ok { db.log := db.log + [row]; }
    }

    method UpdateReadStatus(sid: int, upTo: int) returns (ok: bool)
      modifies db`log
      ensures db.log == if ok then MarkRead(old(db.log), sid, upTo) else old(db.log)
      ensures ok ==> |db.log| == |old(db.log)| && forall i :: 0 <= i < |db.log| ==>
        db.log[i] == if old(db.log)[i].session == sid && old(db.log)[i].id <= upTo
          then old(db.log)[i].(read := true) else old(db.log)[i]
      ensures db.reliable ==> ok
    {
      ok := *;
      ok := ok || db.reliable;
      if ok { db.log := MarkRead(db.log, sid, upTo); }
    }

    // The query is narrowed and the limit defaulted step by step, then ordered and cut: the
    // newest rows below before_seq, newest first.
    method FindBySessionID(sid: int, beforeSeq: int, limit: int) returns (page: Option<seq<Message>>)
      requires db.Valid()
      ensures page.Some? ==> page.value == Page(db.log, sid, beforeSeq, limit)
      ensures page.Some? ==>
        var n, size := |RowsOf(db.log, sid)|, if limit > 0 then limit else 20;
        var top := if 0 < beforeSeq <= n then beforeSeq - 1 else n;
        |page.value| == (if size < top then size else top) && Descends(page.value, db.log, sid, top)
      ensures db.reliable ==> page.Some?
    {
      PageDescends(db.chat, sid, beforeSeq, limit);
      RowsInOrder(db.chat, sid);
      PageIsSlice(db.log, sid, beforeSeq, limit);
      BeforeIsPrefix(RowsOf(db.log, sid), beforeSeq);
      var query := RowsOf(db.log, sid);
      if beforeSeq > 0 {
        query := Before(query, beforeSeq);
      }
      var size := limit;
      if size <= 0 {
        size := 20;
      }
      var reachable: bool := *;
      page := if reachable || db.reliable then Some(Take(SortDesc(query), size)) else None;
    }

    // The unread messages of the visitor's sessions that are not closed, each once, by created_at.
    method FindUnreadForVisitor(visitor: Int64) returns (messages: Option<seq<Message>>)
      requires db.Valid()
      ensures messages.Some? ==> Answers(messages.value, db.log, OpenOf(db.sessions, visitor))
      ensures messages.Some? ==> forall m :: m in messages.value ==> m in db.log && m.session in db.sessions
      ensures messages.Some? ==> forall m :: m in db.log && m.session in db.sessions ==>
        (m in messages.value <==>
         !m.read && db.sessions[m.session].visitor == visitor && db.sessions[m.session].status != Closed)
      ensures messages.Some? ==> OnceByTime(messages.value)
      ensures db.reliable ==> messages.Some?
    {
      messages := Join(OpenOf(db.sessions, visitor));
    }

    method FindUnreadForAgent(agent: Int64) returns (messages: Option<seq<Message>>)
      requires db.Valid()
      ensures messages.Some? ==> Answers(messages.value, db.log, OpenWith(db.sessions, agent))
      ensures messages.Some? ==> forall m :: m in messages.value ==> m in db.log && m.session in db.sessions
      ensures messages.Some? ==> forall m :: m in db.log && m.session in db.sessions ==>
        (m in messages.value <==>
         !m.read && db.sessions[m.session].agent == agent && db.sessions[m.session].status != Closed)
      ensures messages.Some? ==> OnceByTime(messages.value)
      ensures db.reliable ==> messages.Some?
    {
      messages := Join(OpenWith(db.sessions, agent));
    }

    // JOIN ... ORDER BY created_at ASC
    method Join(sids: set<int>) returns (messages: Option<seq<Message>>)
      requires db.Valid()
      ensures messages.Some? ==> Answers(messages.value, db.log, sids) && OnceByTime(messages.value)
      ensures messages.Some? ==> forall m :: m in messages.value <==> m in db.log && !m.read && m.session in sids
      ensures db.reliable ==> messages.Some?
    {
      var reachable: bool := *;
      SortAnswers(UnreadIn(db.log, sids));
      AnswerMembers(db.chat, sids, SortByTime(UnreadIn(db.log, sids)));
      messages := if reachable || db.reliable then Some(SortByTime(UnreadIn(db.log, sids))) else None;
    }

    method CountBySession(sid: int) returns (n: Option<nat>)
      ensures n.Some? ==> n.value == |RowsOf(db.log, sid)|
      ensures n.Some? ==> n.value == |set i | 0 <= i < |db.log| && db.log[i].session == sid|
      ensures db.reliable ==> n.Some?
    {
      var reachable: bool := *;
      RowsCounted(db.log, sid);
      n := if reachable || db.reliable then Some(|RowsOf(db.log, sid)|) else None;
    }

    method CountBySessionAndRole(sid: int, role: Sender) returns (n: Option<nat>)
      ensures n.Some? ==> n.value == CountFrom(RowsOf(db.log, sid), role)
      ensures n.Some? ==> n.value == |set i | 0 <= i < |db.log| && db.log[i].session == sid && db.log[i].from == role|
      ensures db.reliable ==> n.Some?
    {
      var reachable: bool := *;
      RowsCountedFrom(db.log, sid, role);
      n := if reachable || db.reliable then Some(CountFrom(RowsOf(db.log, sid), role)) else None;
    }
  }

  // COUNT(*) WHERE sender_role = role
  function CountFrom(rows: seq<Message>, role: Sender): nat {
    if rows == [] then 0
    else CountFrom(rows[..|rows| - 1], role) + (if rows[|rows| - 1].from == role then 1 else 0)
  }

  function Places(log: seq<Message>, sid: int): set<int> {
    set i | 0 <= i < |log| && log[i].session == sid
  }

  function PlacesFrom(log: seq<Message>, sid: int, role: Sender): set<int> {
    set i | 0 <= i < |log| && log[i].session == sid && log[i].from == role
  }

  lemma NextPlaces(log: seq<Message>, m: Message, sid: int)
    ensures |Places(log + [m], sid)| == |Places(log, sid)| + (if m.session == sid then 1 else 0)
  {
    var before, after := Places(log, sid), Places(log + [m], sid);
    if m.session == sid { assert after == before + {|log|}; } else { assert after == before; }
  }

  lemma NextPlacesFrom(log: seq<Message>, m: Message, sid: int, role: Sender)
    ensures |PlacesFrom(log + [m], sid, role)|
         == |PlacesFrom(log, sid, role)| + (if m.session == sid && m.from == role then 1 else 0)
  {
    var before, after := PlacesFrom(log, sid, role), PlacesFrom(log + [m], sid, role);
    if m.session == sid && m.from == role { assert after == before + {|log|}; } else { assert after == before; }
  }

  lemma NextCount(log: seq<Message>, m: Message, sid: int, role: Sender)
    ensures CountFrom(RowsOf(log + [m], sid), role)
         == CountFrom(RowsOf(log, sid), role) + (if m.session == sid && m.from == role then 1 else 0)
  {
    RowsOfNext(log, m, sid);
    if m.session == sid {
      assert (RowsOf(log, sid) + [m])[..|RowsOf(log, sid)|] == RowsOf(log, sid);
    }
  }

  lemma {:induction false} RowsCounted(log: seq<Message>, sid: int)
    ensures |RowsOf(log, sid)| == |Places(log, sid)|
  {
    if log != [] {
      var front, last := log[..|log| - 1], log[|log| - 1];
      RowsCounted(front, sid);
      RowsOfNext(front, last, sid);
      NextPlaces(front, last, sid);
      assert front + [last] == log;
    }
  }

  lemma {:induction false} RowsCountedFrom(log: seq<Message>, sid: int, role: Sender)
    ensures CountFrom(RowsOf(log, sid), role) == |PlacesFrom(log, sid, role)|
  {
    if log != [] {
      var front, last := log[..|log| - 1], log[|log| - 1];
      RowsCountedFrom(front, sid, role);
      NextCount(front, last, sid, role);
      NextPlacesFrom(front, last, sid, role);
      assert front + [last] == log;
    }
  }

  lemma {:induction false} CountsAddUp(rows: seq<Message>)
    ensures CountFrom(rows, FromVisitor) + CountFrom(rows, FromAgent) + CountFrom(rows, FromSystem) == |rows|
  {
    if rows != [] { CountsAddUp(rows[..|rows| - 1]); }
  }

  // No message from this side has joined the log between a and b.
  predicate NoneJoined(a: seq<Message>, b: seq<Message>, role: Sender) {
    forall k :: |a| <= k < |b| ==> b[k].from != role
  }

  // Of one side, a longer log counts at least as many, and as many exactly if none has joined.
  lemma {:induction false} CountsRise(a: seq<Message>, b: seq<Message>, role: Sender)
    requires Grew(a, b)
    ensures CountFrom(a, role) <= CountFrom(b, role)
    ensures CountFrom(a, role) == CountFrom(b, role) <==> NoneJoined(a, b, role)
    decreases |b|
  {
    if b != [] {
      var front := b[..|b| - 1];
      if |a| == |b| { CountsRise(a[..|a| - 1], front, role); } else { CountsRise(a, front, role); }
    }
  }
}
