/**
 The message and session services. Each call is shown to be its own few steps of the chat
 machine with any steps of other handlers in between, so everything ChatTheorems proves of
 runs holds of the tables these methods leave behind.
 */
module Services {
  import opened Tables
  import opened UserKeys
  import opened MessageLog
  import opened ChatServer
  import opened ChatOrder
  import opened ChatSessions
  import opened ChatTheorems
  import opened Interference
  import opened Stores
  import PeerCache

  datatype Result<+T> = Ok(value: T) | Err(error: Error)

  datatype Error = Unauthorized | SessionConflict | NotFound | StoreFailed

  datatype Stats = Stats(total: nat, visitor: nat, agent: nat, system: nat)

  // Handler t is about to store this draft.
  ghost predicate Begun(s: Chat, t: nat, d: Draft) {
    t in s.tasks && s.tasks[t].Ready? && s.tasks[t].draft == d
  }

  // ... and has stored it.
  ghost predicate Done(s: Chat, t: nat, d: Draft) {
    t in s.tasks && s.tasks[t].Saved? && s.tasks[t].draft == d
  }

  function Sends(t: nat, clock: int, lastOk: bool): seq<Action> {
    [ReadMax(t), TakeId(t), Commit(t, clock, lastOk)]
  }

  // A message no visitor sends: begun, sent, and nothing to count.
  function Posts(t: nat, d: Draft, clock: int, lastOk: bool): seq<Action> {
    [BeginSend(t, d)] + Sends(t, clock, lastOk) + [CountUnread(t, true)]
  }

  function Accepts(t: nat, sid: int, agent: Int64, ok: bool): seq<Action> {
    [Accept(t, sid, agent), ResetUnread(t, ok), FetchReply(t)]
  }

  // What CreateOrGetSession does, by what its lookup answered.
  function Enters(t: nat, tenant: string, visitor: Int64, content: string, found: Lookup): seq<Action> {
    match found
    case Found(sid) => [FindOpen(t, visitor, content, sid)]
    case NoneFound => [FindNone(t, visitor, tenant, content)] + [TakeSession(t)] + [Insert(t)]
    case LookupFailed => [FindFails(t, visitor, tenant, content)] + [TakeSession(t)] + [Insert(t)]
  }

  // The handler now stands before its message; the row it was given may since have moved on.
  ghost predicate Entered(s: Chat, s': Chat, t: nat, tenant: string, visitor: Int64, content: string, sid: int, row: Session,
                          found: Lookup) {
    var before, after := s.db.sessions, s'.db.sessions;
    && Interleaved(s, s', t, Enters(t, tenant, visitor, content, found))
    && t in s'.tasks && s'.tasks[t] == Ready(Draft(sid, FromVisitor, visitor, content), row.agent)
    && sid in after && RowMoved(row, after[sid]) && row.visitor == visitor
    && (found.Found? ==>
          sid == found.sid && sid in before && row == before[sid] && row.status != Closed)
    && (!found.Found? ==> sid !in before && row == Session(tenant, visitor, 0, Pending, 0, 0, ""))
  }

  predicate NoneOpen(sessions: map<int, Session>, visitor: Int64) {
    forall sid :: sid in sessions && sessions[sid].visitor == visitor ==> sessions[sid].status == Closed
  }

  lemma NoneIsEmpty(sessions: map<int, Session>, visitor: Int64)
    requires NoneOpen(sessions, visitor)
    ensures OpenOf(sessions, visitor) == {}
  {
    assert forall sid :: sid !in OpenOf(sessions, visitor);
  }

  // ... or has given up, with or without having taken a number and an id.
  ghost predicate GivenUp(s: Chat, s': Chat, t: nat) {
    Interleaved(s, s', t, [Abort(t)]) || Interleaved(s, s', t, [ReadMax(t), TakeId(t), Abort(t)])
  }

  // The row is the newest of its session, numbered n + 1, unread, on top of the log as it was.
  ghost predicate Stored(base: Db, now: Db, d: Draft, clock: int, row: Message) {
    && now.log == base.log + [row]
    && row == Message(row.id, d.session, |RowsOf(base.log, d.session)| + 1, d.from, d.sender, d.content, clock, false)
    && (forall m :: m in RowsOf(base.log, d.session) ==> m.id < row.id)
  }

  class MessageService {
    const db: Database
    const messages: MessageRepo
    const sessions: SessionRepo

    constructor (db: Database)
      ensures this.db == db && messages.db == db && sessions.db == db
    {
      this.db := db;
      messages := new MessageRepo(db);
      sessions := new SessionRepo(db);
    }

    ghost predicate Valid()
      reads this, db
    {
      messages.db == db && sessions.db == db && db.Valid()
    }

    // SELECT MAX, and whatever others do before the INSERT.
    method ReadNumber(ghost t: nat, d: Draft) returns (seqNum: Option<nat>)
      requires Valid() && Begun(db.chat, t, d)
      modifies db
      ensures Valid()
      ensures seqNum.None? ==> !db.reliable && t !in db.chat.tasks && Interleaved(old(db.chat), db.chat, t, [Abort(t)])
      ensures seqNum.Some? ==> seqNum.value == |RowsOf(old(db.log), d.session)| + 1
      ensures seqNum.Some? ==> Interleaved(old(db.chat), db.chat, t, [ReadMax(t)])
      ensures seqNum.Some? ==> t in db.chat.tasks && db.chat.tasks[t] == HasSeq(d, old(db.chat).tasks[t].saw, seqNum.value)
    {
      seqNum := messages.GetNextSeqNum(d.session);
      if seqNum.None? {
        GiveUp(t);
        return;
      }
      ghost var s := db.chat;
      db.Advance(ReadMax(t));
      TakesStep(s, ReadMax(t), t);
      OthersFollow(s, [ReadMax(t)], t);
    }

    ghost method GiveUp(t: nat)
      requires Valid() && t in db.chat.tasks && (db.chat.tasks[t].Ready? || db.chat.tasks[t].HasId?)
      modifies db`chat
      ensures Valid() && t !in db.chat.tasks && Interleaved(old(db.chat), db.chat, t, [Abort(t)])
    {
      TakesStep(db.chat, Abort(t), t);
      db.Advance(Abort(t));
    }

    method OthersFollow(ghost s: Chat, ghost own: seq<Action>, ghost t: nat)
      requires Valid() && Interleaved(s, db.chat, t, own)
      modifies db
      ensures Valid() && Interleaved(s, db.chat, t, own) && Interleaved(old(db.chat), db.chat, t, [])
      ensures t in db.chat.tasks <==> t in old(db.chat).tasks
      ensures t in db.chat.tasks ==> db.chat.tasks[t] == old(db.chat).tasks[t]
    {
      db.OthersRun(t);
      OthersSpareTask(old(db.chat), db.chat, t);
      Chained(s, old(db.chat), db.chat, t, own, []);
      assert own + [] == own;
    }

    method TakeRowId(ghost t: nat, ghost d: Draft, ghost seqNum: nat) returns (id: int)
      requires Valid() && t in db.chat.tasks && db.chat.tasks[t].HasSeq?
      requires db.chat.tasks[t] == HasSeq(d, db.chat.tasks[t].saw, seqNum)
      modifies db
      ensures Valid() && Interleaved(old(db.chat), db.chat, t, [TakeId(t)])
      ensures t in db.chat.tasks && db.chat.tasks[t] == HasId(d, old(db.chat).tasks[t].saw, seqNum, id)
    {
      ghost var s := db.chat;
      id := messages.TakeId();
      db.Advance(TakeId(t));
      TakesStep(s, TakeId(t), t);
      OthersFollow(s, [TakeId(t)], t);
    }

    // The row, and with it the session's last message, or neither.
    method Insert(ghost t: nat, row: Message, d: Draft, clock: int) returns (ok: bool)
      requires Valid() && t in db.chat.tasks && db.chat.tasks[t].HasId? && row == Row(d, row.seqNum, row.id, clock)
      requires db.chat.tasks[t] == HasId(d, db.chat.tasks[t].saw, row.seqNum, row.id)
      modifies db
      ensures Valid()
      ensures ok ==> Done(db.chat, t, d) && db.chat.tasks[t].saw == old(db.chat).tasks[t].saw
      ensures ok ==> db.log == old(db.log) + [row] && !Taken(old(db.log), d.session, row.seqNum)
      ensures ok && db.reliable && d.session in db.sessions ==> db.sessions[d.session].lastMsg == row.id
      ensures ok ==>
        exists lastOk :: (db.reliable ==> lastOk) && Interleaved(old(db.chat), db.chat, t, [Commit(t, clock, lastOk)])
      ensures !ok ==> t !in db.chat.tasks && Interleaved(old(db.chat), db.chat, t, [Abort(t)]) && db.log == old(db.log)
      ensures !ok && db.reliable ==> Taken(old(db.log), d.session, row.seqNum)
    {
      ghost var s := db.chat;
      ok := messages.Create(row);
      if ok {
        var lastOk := sessions.UpdateLastMessage(row.session, row.id);
        db.Advance(Commit(t, clock, lastOk));
        TakesStep(s, Commit(t, clock, lastOk), t);
      } else {
        GiveUp(t);
      }
    }

    // The number is read, an id taken and the row inserted, with anything in between. A message
    // that is stored takes the next number of its session and an id above all its other rows, at
    // the moment it commits. If no statement fails, a message is refused only because another
    // one of the same session was stored meanwhile.
    method SendMessage(ghost t: nat, d: Draft, clock: int) returns (r: Option<Message>)
      requires Valid() && Begun(db.chat, t, d)
      modifies db
      ensures Valid()
      ensures r.Some? ==> Done(db.chat, t, d) && db.chat.tasks[t].saw == old(db.chat).tasks[t].saw
      ensures r.Some? ==>
        exists lastOk :: (db.reliable ==> lastOk) && Interleaved(old(db.chat), db.chat, t, Sends(t, clock, lastOk))
      ensures r.Some? ==> exists base: Db :: DbMoved(old(db.View()), base) && Stored(base, db.View(), d, clock, r.value)
      ensures r.Some? ==>
        r.value == Message(r.value.id, d.session, r.value.seqNum, d.from, d.sender, d.content, clock, false)
      ensures r.Some? && db.reliable && d.session in db.sessions ==> db.sessions[d.session].lastMsg == r.value.id
      ensures r.None? ==> t !in db.chat.tasks && GivenUp(old(db.chat), db.chat, t)
      ensures r.None? && db.reliable ==> |RowsOf(old(db.log), d.session)| < |RowsOf(db.log, d.session)|
    {
      ghost var s := db.chat;
      var seqNum := ReadNumber(t, d);
      if seqNum.None? {
        return None;
      }
      ghost var numbered := db.chat;
      var id := TakeRowId(t, d, seqNum.value);
      ghost var base := db.chat;
      HeldAtCommit(s, numbered, base, t, d, seqNum.value, id);
      var row := Message(id, d.session, seqNum.value, d.from, d.sender, d.content, clock, false);
      var ok := Insert(t, row, d, clock);
      if ok {
        ghost var lastOk :| (db.reliable ==> lastOk) && Interleaved(base, db.chat, t, [Commit(t, clock, lastOk)]);
        SendSteps(s, numbered, base, db.chat, t, Commit(t, clock, lastOk));
        assert Sends(t, clock, lastOk) == [ReadMax(t), TakeId(t), Commit(t, clock, lastOk)];
        assert Stored(base.db, db.View(), d, clock, row);
        r := Some(row);
      } else {
        SendSteps(s, numbered, base, db.chat, t, Abort(t));
        r := None;
      }
    }

    method SendSystemMessage(ghost t: nat, sid: int, content: string, clock: int) returns (r: Option<Message>)
      requires Valid() && t !in db.chat.tasks
      modifies db
      ensures Valid() && t !in db.chat.tasks
      ensures r.Some? ==> exists base: Db ::
        DbMoved(old(db.View()), base) && Stored(base, db.View(), Draft(sid, FromSystem, 0, content), clock, r.value)
      ensures r.Some? ==> r.value == Message(r.value.id, sid, r.value.seqNum, FromSystem, 0, content, clock, false)
      ensures r.Some? && db.reliable && sid in db.sessions ==> db.sessions[sid].lastMsg == r.value.id
      ensures r.Some? ==>
        var d := Draft(sid, FromSystem, 0, content);
        exists lastOk :: (db.reliable ==> lastOk) && Interleaved(old(db.chat), db.chat, t, Posts(t, d, clock, lastOk))
      ensures r.None? && db.reliable ==> |RowsOf(old(db.log), sid)| < |RowsOf(db.log, sid)|
    {
      var d := Draft(sid, FromSystem, 0, content);
      ghost var s := db.chat;
      db.Advance(BeginSend(t, d));
      ghost var begun := db.chat;
      r := SendMessage(t, d, clock);
      if r.Some? {
        ghost var sent := db.chat;
        ghost var lastOk :| (db.reliable ==> lastOk) && Interleaved(begun, sent, t, Sends(t, clock, lastOk));
        db.Advance(CountUnread(t, true));
        PostSteps(s, begun, sent, t, d, clock, lastOk);
      }
    }

    // Afterwards everything up to the id is read; the watermark never moves back.
    method MarkAsRead(sid: int, msgId: int) returns (ok: bool)
      requires Valid()
      modifies db
      ensures Valid() && (db.reliable ==> ok)
      ensures db.chat == if ok then Step(old(db.chat), Read(sid, msgId)) else old(db.chat)
      ensures |db.log| == |old(db.log)| && forall i :: 0 <= i < |db.log| ==>
        db.log[i] == if ok && old(db.log)[i].session == sid && old(db.log)[i].id <= msgId
          then old(db.log)[i].(read := true) else old(db.log)[i]
      ensures ReadCount(RowsOf(old(db.log), sid)) <= ReadCount(RowsOf(db.log, sid))
      ensures ok ==> forall m :: m in RowsOf(db.log, sid) ==>
        (m.read <==> m.id <= msgId || m.seqNum <= ReadCount(RowsOf(old(db.log), sid)))
    {
      MarkedOrBelow(db.chat, sid, msgId);
      ok := messages.UpdateReadStatus(sid, msgId);
      if ok { db.Advance(Read(sid, msgId)); }
    }

    // Four counts taken apart, the later three in the states `moments` and at the end: with sends
    // in between the parts may exceed the total, but they never miss a message it counted, and
    // they add up exactly if no side wrote before its own count was taken.
    method GetMessageStats(ghost t: nat, sid: int) returns (r: Option<Stats>, ghost moments: (Chat, Chat))
      requires Valid()
      modifies db
      ensures Valid() && (db.reliable ==> r.Some?)
      ensures Interleaved(old(db.chat), moments.0, t, []) && Interleaved(moments.0, moments.1, t, [])
      ensures Interleaved(moments.1, db.chat, t, [])
      ensures r.Some? ==>
        CountedApart(r.value, old(db.log), moments.0.db.log, moments.1.db.log, db.log, sid)
      ensures r.Some? ==> var (a, b, c, d) := (old(db.log), moments.0.db.log, moments.1.db.log, db.log);
        && r.value.total == |set i | 0 <= i < |a| && a[i].session == sid|
        && r.value.visitor == |set i | 0 <= i < |b| && b[i].session == sid && b[i].from == FromVisitor|
        && r.value.agent == |set i | 0 <= i < |c| && c[i].session == sid && c[i].from == FromAgent|
        && r.value.system == |set i | 0 <= i < |d| && d[i].session == sid && d[i].from == FromSystem|
    {
      ghost var s0 := db.chat;
      var total := messages.CountBySession(sid);
      db.OthersRun(t);
      ghost var s1 := db.chat;
      var visitor := messages.CountBySessionAndRole(sid, FromVisitor);
      db.OthersRun(t);
      ghost var s2 := db.chat;
      var agent := messages.CountBySessionAndRole(sid, FromAgent);
      db.OthersRun(t);
      var system := messages.CountBySessionAndRole(sid, FromSystem);
      moments := (s1, s2);
      if total.None? || visitor.None? || agent.None? || system.None? {
        return None, moments;
      }
      RowsGrow(s0, s1, t, sid);
      RowsGrow(s1, s2, t, sid);
      RowsGrow(s2, db.chat, t, sid);
      PartsOfRows(RowsOf(s0.db.log, sid), RowsOf(s1.db.log, sid), RowsOf(s2.db.log, sid), RowsOf(db.log, sid));
      r := Some(Stats(total.value, visitor.value, agent.value, system.value));
    }
  }

  // Each number is its count at its own moment.
  ghost predicate CountedApart(stats: Stats, a: seq<Message>, b: seq<Message>, c: seq<Message>, d: seq<Message>, sid: int) {
    var parts := stats.visitor + stats.agent + stats.system;
    && stats == Stats(|RowsOf(a, sid)|, CountFrom(RowsOf(b, sid), FromVisitor), CountFrom(RowsOf(c, sid), FromAgent),
                      CountFrom(RowsOf(d, sid), FromSystem))
    && stats.total <= parts <= |RowsOf(d, sid)|
    && (parts == stats.total <==> && NoneJoined(RowsOf(a, sid), RowsOf(b, sid), FromVisitor)
                                  && NoneJoined(RowsOf(a, sid), RowsOf(c, sid), FromAgent)
                                  && NoneJoined(RowsOf(a, sid), RowsOf(d, sid), FromSystem))
  }

  // When handler t commits, the number and id it holds are as good as when it got them, and a
  // number that is taken by then was taken since it began.
  lemma HeldAtCommit(s: Chat, numbered: Chat, base: Chat, t: nat, d: Draft, seqNum: nat, id: int)
    requires Reachable(s) && seqNum == |RowsOf(s.db.log, d.session)| + 1
    requires Interleaved(s, numbered, t, [ReadMax(t)]) && Interleaved(numbered, base, t, [TakeId(t)])
    requires t in base.tasks && base.tasks[t].HasId? && base.tasks[t] == HasId(d, base.tasks[t].saw, seqNum, id)
    ensures DbMoved(s.db, base.db)
    ensures if Taken(base.db.log, d.session, seqNum)
      then |RowsOf(s.db.log, d.session)| < |RowsOf(base.db.log, d.session)|
      else seqNum == |RowsOf(base.db.log, d.session)| + 1
    ensures forall m :: m in RowsOf(base.db.log, d.session) && m.seqNum < seqNum ==> m.id < id
    ensures !Taken(base.db.log, d.session, seqNum) ==> forall m :: m in RowsOf(base.db.log, d.session) ==> m.id < id
  {
    Chained(s, numbered, base, t, [ReadMax(t)], [TakeId(t)]);
    TablesMove(s, base, t, [ReadMax(t)] + [TakeId(t)]);
    ReachableOk(base);
    assert HeldOk(base.db.log, base.db.nextMessage, base.tasks[t]);
    RowsInOrder(base, d.session);
    FreeSeqIsNext(base.db.log, d.session, seqNum);
  }

  lemma PostSteps(s: Chat, begun: Chat, sent: Chat, t: nat, d: Draft, clock: int, lastOk: bool)
    requires begun == Step(s, BeginSend(t, d)) && Interleaved(begun, sent, t, Sends(t, clock, lastOk))
    ensures Interleaved(s, Step(sent, CountUnread(t, true)), t, Posts(t, d, clock, lastOk))
  {
    TakesStep(s, BeginSend(t, d), t);
    TakesStep(sent, CountUnread(t, true), t);
    Chained(s, begun, sent, t, [BeginSend(t, d)], Sends(t, clock, lastOk));
    Chained(s, sent, Step(sent, CountUnread(t, true)), t, [BeginSend(t, d)] + Sends(t, clock, lastOk), [CountUnread(t, true)]);
  }

  lemma SendSteps(s: Chat, numbered: Chat, base: Chat, end: Chat, t: nat, last: Action)
    requires Interleaved(s, numbered, t, [ReadMax(t)]) && Interleaved(numbered, base, t, [TakeId(t)])
    requires Interleaved(base, end, t, [last])
    ensures Interleaved(s, end, t, [ReadMax(t), TakeId(t), last])
  {
    Chained(s, numbered, base, t, [ReadMax(t)], [TakeId(t)]);
    Chained(s, base, end, t, [ReadMax(t)] + [TakeId(t)], [last]);
    assert [ReadMax(t)] + [TakeId(t)] + [last] == [ReadMax(t), TakeId(t), last];
  }

  lemma MarkedOrBelow(s: Chat, sid: int, upTo: int)
    requires Reachable(s)
    ensures var before, after := RowsOf(s.db.log, sid), RowsOf(MarkRead(s.db.log, sid, upTo), sid);
      && ReadCount(before) <= ReadCount(after)
      && forall m :: m in after ==> (m.read <==> m.id <= upTo || m.seqNum <= ReadCount(before))
  {
    RowsInOrder(s, sid);
    RowsOfMarkRead(s.db.log, sid, upTo, sid);
    RowsOfMembers(s.db.log, sid);
    MarkReadMovesWatermark(RowsOf(s.db.log, sid), sid, upTo);
  }

  lemma RowsGrow(a: Chat, b: Chat, t: nat, sid: int)
    requires Reachable(a) && Interleaved(a, b, t, [])
    ensures Grew(RowsOf(a.db.log, sid), RowsOf(b.db.log, sid))
  {
    TablesMove(a, b, t, []);
    GrewRows(a.db.log, b.db.log, sid);
  }

  lemma PartsOfRows(a: seq<Message>, b: seq<Message>, c: seq<Message>, d: seq<Message>)
    requires Grew(a, b) && Grew(b, c) && Grew(c, d)
    ensures var parts := CountFrom(b, FromVisitor) + CountFrom(c, FromAgent) + CountFrom(d, FromSystem);
      && |a| <= parts <= |d|
      && (parts == |a| <==> NoneJoined(a, b, FromVisitor) && NoneJoined(a, c, FromAgent) && NoneJoined(a, d, FromSystem))
  {
    CountsAddUp(a);
    CountsAddUp(d);
    GrewTransitive(b, c, d);
    GrewTransitive(a, b, c);
    GrewTransitive(a, c, d);
    CountsRise(a, b, FromVisitor);
    CountsRise(b, d, FromVisitor);
    CountsRise(a, c, FromAgent);
    CountsRise(c, d, FromAgent);
    CountsRise(a, d, FromSystem);
  }

  // A system message stored after the total was counted and before its part: the parts exceed it.
  lemma PartsCanExceedTotal() returns (s: Chat)
    ensures Reachable(INIT) && Interleaved(INIT, s, 1, [])
    ensures |RowsOf(INIT.db.log, 1)| == 0 && CountFrom(RowsOf(s.db.log, 1), FromSystem) == 1
  {
    assert Run(INIT, []) == INIT;
    s := SystemMessagePending();
    s := ThenOther(INIT, s, Commit(0, 0, true));
    var row := Row(Draft(1, FromSystem, 0, "closed"), 1, 1, 0);
    assert s.db.log == [] + [row];
    RowsOfAppend([], row, 1);
  }

  lemma SystemMessagePending() returns (s: Chat)
    ensures Interleaved(INIT, s, 1, []) && s.db.log == []
    ensures s.tasks == map[0 := HasId(Draft(1, FromSystem, 0, "closed"), 0, 1, 1)]
  {
    var d := Draft(1, FromSystem, 0, "closed");
    StandsStill(INIT, 1);
    s := ThenOther(INIT, INIT, BeginSend(0, d));
    s := ThenOther(INIT, s, ReadMax(0));
    assert s.tasks == map[0 := HasSeq(d, 0, 1)];
    s := ThenOther(INIT, s, TakeId(0));
  }

  lemma ThenOther(s: Chat, now: Chat, a: Action) returns (next: Chat)
    requires Interleaved(s, now, 1, []) && Elsewhere(a, 1)
    ensures next == Step(now, a) && Interleaved(s, next, 1, [])
  {
    next := Step(now, a);
    TakesStep(now, a, 1);
    Chained(s, now, next, 1, [], []);
  }

  /* ---- sessions and the peer cache ---- */

  class SessionService {
    const db: Database
    const sessions: SessionRepo
    var peerCache: map<int, PeerCache.Peer>

    constructor (db: Database)
      ensures this.db == db && sessions.db == db && peerCache == map[]
    {
      this.db := db;
      sessions := new SessionRepo(db);
      peerCache := map[];
    }

    ghost predicate Valid()
      reads this, db
    {
      sessions.db == db && db.Valid() && PeerCache.CacheOk(db.sessions, peerCache)
    }

    // Other goroutines of this node and every other node run here; PeerCache.StepKeepsWorld
    // shows that none of their fills or evictions can leave a wrong entry.
    method OthersRun(ghost t: nat)
      requires Valid()
      modifies this`peerCache, db
      ensures Valid() && Interleaved(old(db.chat), db.chat, t, [])
    {
      db.OthersRun(t);
      CacheStaysOk(old(db.chat), db.chat, t, [], peerCache);
    }

    method CachePeer(sid: int, visitor: Int64, agent: Int64)
      requires Valid() && PeerCache.PeerOk(db.sessions, sid, PeerCache.Peer(visitor, agent))
      modifies this`peerCache
      ensures Valid() && peerCache == old(peerCache)[sid := PeerCache.Peer(visitor, agent)]
    {
      peerCache := peerCache[sid := PeerCache.Peer(visitor, agent)];
    }

    // A lookup that works returns an open session if there is one; otherwise, and after a lookup
    // that fails for whatever reason, one is created. OpenSessions says when that makes two. The
    // cache is filled before the commit, so it keeps the entry when the commit fails.
    method CreateOrGetSession(ghost t: nat, tenant: string, visitor: Int64, ghost content: string)
        returns (r: Result<(int, Session)>, ghost found: Lookup)
      requires Valid() && t !in db.chat.tasks
      modifies this`peerCache, db
      ensures Valid() && (db.reliable ==> found != LookupFailed)
      ensures visitor <= 0 ==> r == Err(Unauthorized) && db.chat == old(db.chat)
      ensures visitor > 0 && db.reliable ==> r.Ok?
      ensures r.Ok? ==> Entered(old(db.chat), db.chat, t, tenant, visitor, content, r.value.0, r.value.1, found)
      ensures visitor > 0 && found.Found? ==>
        found.sid in old(db.sessions) && old(db.sessions)[found.sid].visitor == visitor
        && old(db.sessions)[found.sid].status != Closed
      ensures visitor > 0 && found == NoneFound ==>
        forall sid :: sid in old(db.sessions) && old(db.sessions)[sid].visitor == visitor ==>
          old(db.sessions)[sid].status == Closed
      ensures r.Ok? && found.Found? ==> r.value == (found.sid, old(db.sessions)[found.sid])
      ensures r.Ok? && !found.Found? ==>
        r.value.0 !in old(db.sessions) && r.value.1 == Session(tenant, visitor, 0, Pending, 0, 0, "")
      ensures r.Ok? ==> r.value.0 in db.sessions && db.sessions[r.value.0].visitor == visitor
      ensures r.Err? ==> t !in db.chat.tasks
    {
      found := NoneFound;
      if visitor <= 0 {
        return Err(Unauthorized), found;
      }
      var looked := sessions.FindByVisitorID(visitor);
      found := looked;
      if looked.Found? {
        r := ReturnFound(t, tenant, visitor, content, looked.sid);
      } else {
        assert looked == NoneFound ==> NoneOpen(db.sessions, visitor);
        r := CreateSession(t, tenant, visitor, content, looked);
      }
    }

    // The row as it was found goes into the cache, however late, and even if the commit then fails.
    method ReturnFound(ghost t: nat, ghost tenant: string, visitor: Int64, ghost content: string, sid: int)
        returns (r: Result<(int, Session)>)
      requires Valid() && t !in db.chat.tasks && visitor > 0
      requires sid in db.sessions && db.sessions[sid].visitor == visitor && db.sessions[sid].status != Closed
      modifies this`peerCache, db
      ensures Valid() && (db.reliable ==> r.Ok?)
      ensures r.Ok? ==> Entered(old(db.chat), db.chat, t, tenant, visitor, content, r.value.0, r.value.1, Found(sid))
      ensures r.Err? ==> t !in db.chat.tasks
    {
      ghost var s := db.chat;
      var row := db.sessions[sid];
      db.Advance(FindOpen(t, visitor, content, sid));
      ghost var found := db.chat;
      TakesStep(s, FindOpen(t, visitor, content, sid), t);
      CacheStaysOk(s, found, t, [FindOpen(t, visitor, content, sid)], peerCache);
      OthersFollow(s, [FindOpen(t, visitor, content, sid)], t);
      RowStays(s, found, db.chat, t, sid);
      CachePeer(sid, row.visitor, row.agent);
      OthersFollow(s, [FindOpen(t, visitor, content, sid)], t);
      RowsMoved(s, db.chat, t, [FindOpen(t, visitor, content, sid)], sid);
      var committed := sessions.CommitNothing();
      if committed {
        r := Ok((sid, row));
      } else {
        GiveUp(t);
        r := Err(StoreFailed);
      }
    }

    method CreateSession(ghost t: nat, tenant: string, visitor: Int64, ghost content: string, ghost found: Lookup)
        returns (r: Result<(int, Session)>)
      requires Valid() && t !in db.chat.tasks && visitor > 0 && !found.Found?
      requires found == NoneFound ==> NoneOpen(db.sessions, visitor)
      modifies this`peerCache, db
      ensures Valid() && (db.reliable ==> r.Ok?)
      ensures r.Ok? ==> Entered(old(db.chat), db.chat, t, tenant, visitor, content, r.value.0, r.value.1, found)
      ensures r.Err? ==> t !in db.chat.tasks
    {
      ghost var s := db.chat;
      Enter(t, tenant, visitor, content, found);
      ghost var entered := db.chat;
      var made := TakeSessionId(t, tenant, visitor, content);
      if made.None? {
        return Err(StoreFailed);
      }
      var sid := made.value;
      FreshId(s, entered, t, [EnterStep(t, tenant, visitor, content, found)]);
      CachePeer(sid, visitor, 0);
      OthersFollow(entered, [TakeSession(t)], t);
      ghost var taken := db.chat;
      var committed := CommitSession(t, tenant, visitor, content, sid);
      if !committed {
        return Err(StoreFailed);
      }
      Chained(s, entered, taken, t, [EnterStep(t, tenant, visitor, content, found)], [TakeSession(t)]);
      Chained(s, taken, db.chat, t, [EnterStep(t, tenant, visitor, content, found)] + [TakeSession(t)], [Insert(t)]);
      r := Ok((sid, NewSession(tenant, visitor)));
    }

    ghost method GiveUp(t: nat)
      requires Valid() && t in db.chat.tasks && Uncommitted(db.chat.tasks[t])
      modifies db`chat
      ensures Valid() && t !in db.chat.tasks && Interleaved(old(db.chat), db.chat, t, [Abort(t)])
    {
      TakesStep(db.chat, Abort(t), t);
      db.Advance(Abort(t));
    }

    // The lookup has answered "none" or failed; others go on.
    method Enter(ghost t: nat, ghost tenant: string, ghost visitor: Int64, ghost content: string, ghost found: Lookup)
      requires Valid() && t !in db.chat.tasks && visitor > 0 && !found.Found?
      requires found == NoneFound ==> NoneOpen(db.sessions, visitor)
      modifies this`peerCache, db
      ensures Valid() && t in db.chat.tasks && db.chat.tasks[t] == Entering(tenant, visitor, content)
      ensures Interleaved(old(db.chat), db.chat, t, [EnterStep(t, tenant, visitor, content, found)])
    {
      ghost var s, a := db.chat, EnterStep(t, tenant, visitor, content, found);
      if found == NoneFound { NoneIsEmpty(db.sessions, visitor); }
      db.Advance(a);
      TakesStep(s, a, t);
      CacheStaysOk(s, db.chat, t, [a], peerCache);
      OthersFollow(s, [a], t);
    }

    method TakeSessionId(ghost t: nat, tenant: string, visitor: Int64, ghost content: string) returns (sid: Option<int>)
      requires Valid() && t in db.chat.tasks && db.chat.tasks[t] == Entering(tenant, visitor, content)
      modifies db
      ensures Valid()
      ensures sid.None? ==> !db.reliable && t !in db.chat.tasks
      ensures sid.Some? ==> sid.value == old(db.nextSession) && db.sessions == old(db.sessions)
      ensures sid.Some? ==> t in db.chat.tasks && db.chat.tasks[t] == Inserting(tenant, visitor, content, sid.value)
      ensures sid.Some? ==> Interleaved(old(db.chat), db.chat, t, [TakeSession(t)])
    {
      ghost var s := db.chat;
      sid := sessions.Create(tenant, visitor);
      if sid.Some? {
        db.Advance(TakeSession(t));
        TakesStep(s, TakeSession(t), t);
      } else {
        GiveUp(t);
      }
    }

    // The row appears, or never existed.
    method CommitSession(ghost t: nat, tenant: string, visitor: Int64, ghost content: string, sid: int) returns (ok: bool)
      requires Valid() && t in db.chat.tasks && db.chat.tasks[t] == Inserting(tenant, visitor, content, sid)
      modifies db
      ensures Valid() && (db.reliable ==> ok) && (!ok ==> t !in db.chat.tasks)
      ensures ok ==> Interleaved(old(db.chat), db.chat, t, [Insert(t)])
      ensures ok ==> sid in db.sessions && db.sessions[sid] == NewSession(tenant, visitor)
      ensures ok ==> t in db.chat.tasks && db.chat.tasks[t] == Ready(Draft(sid, FromVisitor, visitor, content), 0)
    {
      ghost var s := db.chat;
      ReachableIds(s);
      TaskKnowsAgent(s, t);
      ok := sessions.Commit(sid, NewSession(tenant, visitor));
      if ok {
        db.Advance(Insert(t));
        TakesStep(s, Insert(t), t);
        CacheStaysOk(s, db.chat, t, [Insert(t)], peerCache);
      } else {
        GiveUp(t);
      }
    }

    // The agent's row is read first; what counts is the state `at` when the session is assigned. Of
    // all accepts of a session only the one that finds it pending then succeeds, and the session it
    // returns carries its own agent, now and for ever.
    method AcceptSession(ghost t: nat, sid: int, agent: Int64, agentKnown: bool) returns (r: Result<Session>, ghost at: Chat)
      requires Valid() && agent > 0 && t !in db.chat.tasks
      modifies this`peerCache, db
      ensures Valid() && Interleaved(old(db.chat), at, t, [])
      ensures r.Ok? ==> sid in at.db.sessions && at.db.sessions[sid].status == Pending
      ensures r.Ok? ==> r.value.agent == agent && r.value.visitor == at.db.sessions[sid].visitor
      ensures r.Ok? ==> sid in db.sessions && db.sessions[sid].agent == agent && db.sessions[sid].status != Pending
      ensures r.Ok? ==> exists ok :: (db.reliable ==> ok) && Interleaved(at, db.chat, t, Accepts(t, sid, agent, ok))
      ensures r.Ok? ==> t in db.chat.tasks && db.chat.tasks[t] == Replied(sid, agent, r.value)
      ensures r.Ok? ==> sid in peerCache && peerCache[sid] == PeerCache.Peer(r.value.visitor, agent)
      ensures db.reliable && agentKnown ==>
        (r.Ok? <==> sid in at.db.sessions && at.db.sessions[sid].status == Pending)
      ensures db.reliable && agentKnown && r.Err? ==> r == Err(SessionConflict)
      ensures r == Err(SessionConflict) ==> sid !in at.db.sessions || at.db.sessions[sid].status != Pending
      ensures !agentKnown || sid !in at.db.sessions || at.db.sessions[sid].status != Pending ==>
        r.Err? && db.chat == at
    {
      OthersRun(t);
      at := db.chat;
      if !agentKnown {
        return Err(NotFound), at;
      }
      OthersSpareTask(old(db.chat), at, t);
      r := Take(t, sid, agent);
    }

    method Take(ghost t: nat, sid: int, agent: Int64) returns (r: Result<Session>)
      requires Valid() && agent > 0 && t !in db.chat.tasks
      modifies this`peerCache, db
      ensures Valid()
      ensures r.Ok? ==> sid in old(db.sessions) && old(db.sessions)[sid].status == Pending
      ensures r.Ok? ==> r.value.agent == agent && r.value.visitor == old(db.sessions)[sid].visitor
      ensures r.Ok? ==> sid in db.sessions && db.sessions[sid].agent == agent && db.sessions[sid].status != Pending
      ensures r.Ok? ==> exists ok :: (db.reliable ==> ok) && Interleaved(old(db.chat), db.chat, t, Accepts(t, sid, agent, ok))
      ensures r.Ok? ==> t in db.chat.tasks && db.chat.tasks[t] == Replied(sid, agent, r.value)
      ensures r.Ok? ==> sid in peerCache && peerCache[sid] == PeerCache.Peer(r.value.visitor, agent)
      ensures db.reliable ==> (r.Ok? <==> sid in old(db.sessions) && old(db.sessions)[sid].status == Pending)
      ensures db.reliable && r.Err? ==> r == Err(SessionConflict)
      ensures r == Err(SessionConflict) ==> sid !in old(db.sessions) || old(db.sessions)[sid].status != Pending
      ensures sid !in old(db.sessions) || old(db.sessions)[sid].status != Pending ==> r.Err? && db.chat == old(db.chat)
    {
      ghost var at := db.chat;
      var assignment := Assign(t, sid, agent);
      match assignment {
        case AlreadyAssigned => return Err(SessionConflict);
        case AssignFailed => return Err(StoreFailed);
        case Assigned =>
      }
      ghost var accepted := db.chat;
      ghost var ok := Reset(t, sid, agent);
      ghost var cleared := db.chat;
      var row := Reread(t, sid, agent);
      if row.None? {
        return Err(NotFound);
      }
      AcceptSteps(at, accepted, cleared, db.chat, t, sid, agent, ok);
      AcceptedRow(at, db.chat, t, sid, agent, row.value, Accepts(t, sid, agent, ok));
      CachePeer(sid, row.value.visitor, agent);
      r := Ok(row.value);
    }

    method Assign(ghost t: nat, sid: int, agent: Int64) returns (r: Assignment)
      requires Valid() && agent > 0 && t !in db.chat.tasks
      modifies this`peerCache, db
      ensures Valid()
      ensures r == Assigned ==> sid in old(db.sessions) && old(db.sessions)[sid].status == Pending
      ensures r == Assigned ==> t in db.chat.tasks && db.chat.tasks[t] == Accepted(sid, agent)
      ensures r == Assigned ==> Interleaved(old(db.chat), db.chat, t, [Accept(t, sid, agent)])
      ensures r == AlreadyAssigned ==> sid !in old(db.sessions) || old(db.sessions)[sid].status != Pending
      ensures r != Assigned ==> db.chat == old(db.chat)
      ensures db.reliable ==> r != AssignFailed
    {
      r := sessions.AssignAgent(sid, agent);
      if r == Assigned {
        ghost var s := db.chat;
        db.Advance(Accept(t, sid, agent));
        TakesStep(s, Accept(t, sid, agent), t);
        CacheStaysOk(s, db.chat, t, [Accept(t, sid, agent)], peerCache);
        OthersFollow(s, [Accept(t, sid, agent)], t);
      }
    }

    method Reset(ghost t: nat, sid: int, ghost agent: Int64) returns (ok: bool)
      requires Valid() && t in db.chat.tasks && db.chat.tasks[t] == Accepted(sid, agent)
      modifies this`peerCache, db
      ensures Valid() && t in db.chat.tasks && db.chat.tasks[t] == Cleared(sid, agent)
      ensures Interleaved(old(db.chat), db.chat, t, [ResetUnread(t, ok)]) && (db.reliable ==> ok)
    {
      ghost var s := db.chat;
      ok := sessions.ResetUnread(sid);
      db.Advance(ResetUnread(t, ok));
      TakesStep(s, ResetUnread(t, ok), t);
      CacheStaysOk(s, db.chat, t, [ResetUnread(t, ok)], peerCache);
      OthersFollow(s, [ResetUnread(t, ok)], t);
    }

    method Reread(ghost t: nat, sid: int, ghost agent: Int64) returns (row: Option<Session>)
      requires Valid() && t in db.chat.tasks && db.chat.tasks[t] == Cleared(sid, agent)
      modifies this`peerCache, db
      ensures Valid() && (db.reliable ==> row.Some?)
      ensures row.Some? ==> t in db.chat.tasks && db.chat.tasks[t] == Replied(sid, agent, row.value)
      ensures row.Some? ==> Interleaved(old(db.chat), db.chat, t, [FetchReply(t)])
      ensures row.Some? ==> PeerCache.PeerOk(db.sessions, sid, PeerCache.Peer(row.value.visitor, row.value.agent))
    {
      ghost var s := db.chat;
      TaskKnowsAgent(s, t);
      row := sessions.FindByID(sid);
      if row.Some? {
        db.Advance(FetchReply(t));
        TakesStep(s, FetchReply(t), t);
        ghost var fetched := db.chat;
        OthersFollow(s, [FetchReply(t)], t);
        RowStays(s, fetched, db.chat, t, sid);
      }
    }

    method OthersFollow(ghost s: Chat, ghost own: seq<Action>, ghost t: nat)
      requires Valid() && Interleaved(s, db.chat, t, own)
      modifies this`peerCache, db
      ensures Valid() && Interleaved(s, db.chat, t, own) && Interleaved(old(db.chat), db.chat, t, [])
      ensures t in db.chat.tasks <==> t in old(db.chat).tasks
      ensures t in db.chat.tasks ==> db.chat.tasks[t] == old(db.chat).tasks[t]
    {
      OthersRun(t);
      OthersSpareTask(old(db.chat), db.chat, t);
      Chained(s, old(db.chat), db.chat, t, own, []);
      assert own + [] == own;
    }

    // Closing is unconditional; the local entry is dropped, other nodes keep theirs.
    method CloseSession(ghost t: nat, sid: int, reason: string) returns (r: Result<Session>)
      requires Valid()
      modifies this`peerCache, db
      ensures Valid()
      ensures r.Ok? ==> Interleaved(Step(old(db.chat), Close(sid, reason)), db.chat, t, [])
      ensures r.Ok? ==> sid in db.sessions && r.value == db.sessions[sid]
      ensures r.Ok? && sid in old(db.sessions) ==>
        r.value.status == Closed && r.value.agent == old(db.sessions)[sid].agent
      ensures db.reliable && sid in old(db.sessions) ==> r.Ok?
    {
      ghost var s := db.chat;
      var ok := sessions.Close(sid, reason);
      if !ok {
        return Err(StoreFailed);
      }
      db.Advance(Close(sid, reason));
      ghost var closed := db.chat;
      TakesStep(s, Close(sid, reason), t);
      CacheStaysOk(s, closed, t, [], peerCache);
      OthersRun(t);
      peerCache := peerCache - {sid};
      ghost var evicted := db.chat;
      OthersRun(t);
      Chained(closed, evicted, db.chat, t, [], []);
      TablesMove(closed, db.chat, t, []);
      assert sid in closed.db.sessions ==> RowMoved(closed.db.sessions[sid], db.sessions[sid]);
      var row := sessions.FindByID(sid);
      if row.None? {
        return Err(NotFound);
      }
      r := Ok(row.value);
    }

    // Cache first, table on a miss: the answer is the table's own at some moment of the call.
    // Only a failing store answers (0, no role) for a session that exists.
    method GetPeerIDs(ghost t: nat, sid: int, self: Int64) returns (answer: PeerCache.Answer)
      requires Valid() && self > 0
      modifies this`peerCache, db
      ensures Valid() && Interleaved(old(db.chat), db.chat, t, [])
      ensures answer.role != PeerCache.NoRole ==> sid in peerCache
      ensures (!db.reliable && answer == PeerCache.Answer(0, PeerCache.NoRole))
        || AnsweredBetween(old(db.chat), db.chat, t, sid, self, answer)
      ensures (!db.reliable && answer == PeerCache.Answer(0, PeerCache.NoRole)) || exists moment: Chat ::
        Interleaved(old(db.chat), moment, t, []) && Interleaved(moment, db.chat, t, []) &&
        (if sid !in moment.db.sessions then answer == PeerCache.Answer(0, PeerCache.NoRole) else
           var row := moment.db.sessions[sid];
           answer == if self == row.visitor && row.agent > 0 then PeerCache.Answer(row.agent, PeerCache.AgentRole)
                     else PeerCache.Answer(row.visitor, PeerCache.VisitorRole))
    {
      ghost var s := db.chat;
      OthersRun(t);
      ghost var moment := db.chat;
      if sid in peerCache {
        var peer := peerCache[sid];
        var hit := PeerCache.CacheAnswer(peer, self);
        if hit.Some? {
          PeerCache.HitIsExact(db.sessions, sid, peer, self);
          StandsStill(moment, t);
          return hit.value;
        }
      }
      OthersRun(t);
      Chained(s, moment, db.chat, t, [], []);
      moment := db.chat;
      StandsStill(moment, t);
      var row := sessions.FindByID(sid);
      if row.None? {
        return PeerCache.Answer(0, PeerCache.NoRole);
      }
      OthersRun(t);
      Chained(s, moment, db.chat, t, [], []);
      RowStays(moment, moment, db.chat, t, sid);
      CachePeer(sid, row.value.visitor, row.value.agent);
      answer := PeerCache.RowAnswer(row.value, self);
      assert answer == PeerCache.TableAnswer(moment.db.sessions, sid, self);
    }
  }

  lemma AcceptSteps(s: Chat, accepted: Chat, cleared: Chat, end: Chat, t: nat, sid: int, agent: Int64, ok: bool)
    requires Interleaved(s, accepted, t, [Accept(t, sid, agent)]) && Interleaved(accepted, cleared, t, [ResetUnread(t, ok)])
    requires Interleaved(cleared, end, t, [FetchReply(t)])
    ensures Interleaved(s, end, t, Accepts(t, sid, agent, ok))
  {
    var own := [Accept(t, sid, agent)] + [ResetUnread(t, ok)];
    Chained(s, accepted, cleared, t, [Accept(t, sid, agent)], [ResetUnread(t, ok)]);
    Chained(s, cleared, end, t, own, [FetchReply(t)]);
    assert own + [FetchReply(t)] == Accepts(t, sid, agent, ok);
  }

  lemma AcceptedRow(s: Chat, s': Chat, t: nat, sid: int, agent: Int64, row: Session, own: seq<Action>)
    requires Reachable(s) && Reachable(s') && Interleaved(s, s', t, own) && sid in s.db.sessions
    requires t in s'.tasks && s'.tasks[t] == Replied(sid, agent, row)
    requires PeerCache.PeerOk(s'.db.sessions, sid, PeerCache.Peer(row.visitor, row.agent))
    ensures row.agent == agent && row.visitor == s.db.sessions[sid].visitor
    ensures AgentIs(s'.db.sessions, sid, agent) && s'.db.sessions[sid].status != Pending
  {
    TaskKnowsAgent(s', t);
    RowsMoved(s, s', t, own, sid);
    ReachableOk(s');
    assert RowOk(s'.db.sessions[sid]);
  }

  // At some moment between s and s', a lookup in the table alone answers the same.
  ghost predicate AnsweredBetween(s: Chat, s': Chat, t: nat, sid: int, self: int, answer: PeerCache.Answer) {
    exists moment: Chat :: Interleaved(s, moment, t, []) && Interleaved(moment, s', t, [])
                           && answer == PeerCache.TableAnswer(moment.db.sessions, sid, self)
  }

  function EnterStep(t: nat, tenant: string, visitor: Int64, content: string, found: Lookup): Action {
    if found == LookupFailed then FindFails(t, visitor, tenant, content) else FindNone(t, visitor, tenant, content)
  }

  lemma RowsMoved(s: Chat, s': Chat, t: nat, own: seq<Action>, sid: int)
    requires Reachable(s) && Interleaved(s, s', t, own) && sid in s.db.sessions
    ensures sid in s'.db.sessions && RowMoved(s.db.sessions[sid], s'.db.sessions[sid])
  {
    TablesMove(s, s', t, own);
  }

  // An id handed out later is nobody's now.
  lemma FreshId(s: Chat, s': Chat, t: nat, own: seq<Action>)
    requires Reachable(s) && Interleaved(s, s', t, own)
    ensures s'.db.nextSession !in s.db.sessions
  {
    TablesMove(s, s', t, own);
    ReachableIds(s);
  }

  lemma TableMovedKeepsCache(a: map<int, Session>, b: map<int, Session>, cache: map<int, PeerCache.Peer>)
    requires TableOk(a) && TableMoved(a, b) && PeerCache.CacheOk(a, cache)
    ensures PeerCache.CacheOk(b, cache)
  {
    forall sid | sid in cache ensures PeerCache.PeerOk(b, sid, cache[sid]) {
      if cache[sid].agent > 0 { assert RowMoved(a[sid], b[sid]) && RowOk(a[sid]); }
    }
  }

  // No step anywhere makes a good cache wrong.
  lemma CacheStaysOk(a: Chat, b: Chat, t: nat, own: seq<Action>, cache: map<int, PeerCache.Peer>)
    requires Reachable(a) && Interleaved(a, b, t, own) && PeerCache.CacheOk(a.db.sessions, cache)
    ensures PeerCache.CacheOk(b.db.sessions, cache)
  {
    TablesMove(a, b, t, own);
    TableMovedKeepsCache(a.db.sessions, b.db.sessions, cache);
  }

  lemma TaskKnowsAgent(s: Chat, t: nat)
    requires Reachable(s) && t in s.tasks
    ensures SawOk(s.db.sessions, s.tasks[t])
  {
    ReachableOk(s);
  }

  // What a row said can still be cached later, however stale it has become.
  lemma RowStays(a: Chat, b: Chat, c: Chat, t: nat, sid: int)
    requires Reachable(a) && b.db == a.db && Reachable(b) && Interleaved(b, c, t, []) && sid in a.db.sessions
    ensures var row := a.db.sessions[sid]; PeerCache.PeerOk(c.db.sessions, sid, PeerCache.Peer(row.visitor, row.agent))
  {
    TablesMove(b, c, t, []);
    assert RowOk(b.db.sessions[sid]) && RowMoved(b.db.sessions[sid], c.db.sessions[sid]);
  }
}
