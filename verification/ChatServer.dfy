/**
 The chat server over one shared database, as a machine of atomic steps taken by any
 number of handlers on any number of nodes. A send is three steps apart: read the maximum
 sequence number, take an id from the table's counter, then commit against the unique
 index or abort. So is the creation of a session: look for an open one, take an id, commit.
 Nothing makes these steps one. A disabled step changes nothing, so every list of actions is
 a run.
 */
module ChatServer {
  import opened Tables
  import opened UserKeys
  import opened MessageLog

  // What a handler wants to store.
  datatype Draft = Draft(session: int, from: Sender, sender: int, content: string)

  // Where one handler stands between two statements. `saw` is the agent id in the session
  // row the handler fetched when it began (0 for agent and system sends).
  datatype Task =
    | Entering(tenant: string, visitor: Int64, content: string)
    | Inserting(tenant: string, visitor: Int64, content: string, session: int)
    | Ready(draft: Draft, saw: Int64)
    | HasSeq(draft: Draft, saw: Int64, seqNum: nat)
    | HasId(draft: Draft, saw: Int64, seqNum: nat, id: int)
    | Saved(draft: Draft, saw: Int64)
    | Accepted(session: int, agent: Int64)
    | Cleared(session: int, agent: Int64)
    | Replied(session: int, agent: Int64, reply: Session)

  // History per session: visitor messages saved by a handler that saw an agent, increments
  // wiped by an accept's reset, increments the database refused.
  datatype Tally = Tally(counted: nat, erased: int, failed: nat)

  datatype Chat = Chat(db: Db, tasks: map<nat, Task>, tallies: map<int, Tally>)

  datatype Action =
    | FindOpen(t: nat, visitor: Int64, content: string, session: int)
    | FindNone(t: nat, visitor: Int64, tenant: string, content: string)
    | FindFails(t: nat, visitor: Int64, tenant: string, content: string)
    | TakeSession(t: nat)
    | Insert(t: nat)
    | BeginSend(t: nat, draft: Draft)
    | ReadMax(t: nat)
    | TakeId(t: nat)
    | Commit(t: nat, created: int, lastOk: bool)
    | Abort(t: nat)
    | CountUnread(t: nat, ok: bool)
    | Accept(t: nat, session: int, agent: Int64)
    | ResetUnread(t: nat, ok: bool)
    | FetchReply(t: nat)
    | Close(session: int, reason: string)
    | Read(session: int, upTo: int)

  const INIT := Chat(Db(map[], [], 1, 1), map[], map[])

  function Row(d: Draft, seqNum: nat, id: int, created: int): Message {
    Message(id, d.session, seqNum, d.from, d.sender, d.content, created, false)
  }

  function TallyOf(tallies: map<int, Tally>, sid: int): Tally {
    if sid in tallies then tallies[sid] else Tally(0, 0, 0)
  }

  // A visitor's handler that saw an agent owes the session one increment.
  predicate Owes(task: Task, sid: int) {
    task.Saved? && task.draft.session == sid && Counts(task.draft, task.saw)
  }

  // Nothing of it is in the tables yet.
  predicate Uncommitted(task: Task) {
    task.Entering? || task.Inserting? || task.Ready? || task.HasSeq? || task.HasId?
  }

  predicate Counts(d: Draft, saw: Int64) {
    d.from == FromVisitor && saw > 0
  }

  /* ---- the steps ---- */

  function Put(s: Chat, t: nat, task: Task): Chat {
    s.(tasks := s.tasks[t := task])
  }

  function Drop(s: Chat, t: nat): Chat {
    s.(tasks := s.tasks - {t})
  }

  // A lookup that works returns one of the visitor's open sessions, whichever created_at puts
  // first, or finds none; whatever error it ends in, the code goes on as if there were none.
  function DoFindOpen(s: Chat, t: nat, visitor: Int64, content: string, sid: int): Chat {
    if t in s.tasks || visitor <= 0 || sid !in OpenOf(s.db.sessions, visitor) then s
    else Put(s, t, Ready(Draft(sid, FromVisitor, visitor, content), s.db.sessions[sid].agent))
  }

  function DoEnter(s: Chat, t: nat, visitor: Int64, tenant: string, content: string): Chat {
    if t in s.tasks || visitor <= 0 then s else Put(s, t, Entering(tenant, visitor, content))
  }

  function DoTakeSession(s: Chat, t: nat): Chat
    requires t in s.tasks && s.tasks[t].Entering?
  {
    var Entering(tenant, visitor, content) := s.tasks[t];
    Put(s.(db := s.db.(nextSession := s.db.nextSession + 1)), t, Inserting(tenant, visitor, content, s.db.nextSession))
  }

  // The transaction that inserts the row commits; nothing asks again whether one is open.
  function DoInsert(s: Chat, t: nat): Chat
    requires t in s.tasks && s.tasks[t].Inserting?
  {
    var Inserting(tenant, visitor, content, sid) := s.tasks[t];
    if sid in s.db.sessions then Drop(s, t)
    else
      Put(s.(db := s.db.(sessions := s.db.sessions[sid := NewSession(tenant, visitor)])),
          t, Ready(Draft(sid, FromVisitor, visitor, content), 0))
  }

  function DoReadMax(s: Chat, t: nat): Chat
    requires t in s.tasks && s.tasks[t].Ready?
  {
    var Ready(d, saw) := s.tasks[t];
    Put(s, t, HasSeq(d, saw, MaxSeq(RowsOf(s.db.log, d.session)) + 1))
  }

  function DoTakeId(s: Chat, t: nat): Chat
    requires t in s.tasks && s.tasks[t].HasSeq?
  {
    var HasSeq(d, saw, seqNum) := s.tasks[t];
    Put(s.(db := s.db.(nextMessage := s.db.nextMessage + 1)), t, HasId(d, saw, seqNum, s.db.nextMessage))
  }

  function DoCommit(s: Chat, t: nat, created: int, lastOk: bool): Chat
    requires t in s.tasks && s.tasks[t].HasId?
  {
    var HasId(d, saw, seqNum, id) := s.tasks[t];
    if Taken(s.db.log, d.session, seqNum) then Drop(s, t)
    else
      var sessions := if lastOk then SetLast(s.db.sessions, d.session, id) else s.db.sessions;
      var tally := TallyOf(s.tallies, d.session);
      var tallies := if Counts(d, saw)
        then s.tallies[d.session := tally.(counted := tally.counted + 1)] else s.tallies;
      Chat(s.db.(sessions := sessions, log := s.db.log + [Row(d, seqNum, id, created)]),
           s.tasks[t := Saved(d, saw)], tallies)
  }

  function DoCountUnread(s: Chat, t: nat, ok: bool): Chat
    requires t in s.tasks && s.tasks[t].Saved?
  {
    var Saved(d, saw) := s.tasks[t];
    var tally := TallyOf(s.tallies, d.session);
    if !Counts(d, saw) then Drop(s, t)
    else if ok then Drop(s.(db := s.db.(sessions := AddUnread(s.db.sessions, d.session))), t)
    else Drop(s.(tallies := s.tallies[d.session := tally.(failed := tally.failed + 1)]), t)
  }

  function DoAccept(s: Chat, t: nat, sid: int, agent: Int64): Chat {
    if t in s.tasks || agent <= 0 || !Assignable(s.db.sessions, sid) then s
    else Put(s.(db := s.db.(sessions := WithAgent(s.db.sessions, sid, agent))), t, Accepted(sid, agent))
  }

  function DoResetUnread(s: Chat, t: nat, ok: bool): Chat
    requires t in s.tasks && s.tasks[t].Accepted?
  {
    var Accepted(sid, agent) := s.tasks[t];
    if ok && sid in s.db.sessions then
      var tally := TallyOf(s.tallies, sid);
      Put(Chat(s.db.(sessions := ClearUnread(s.db.sessions, sid)), s.tasks,
               s.tallies[sid := tally.(erased := tally.erased + s.db.sessions[sid].unread)]),
          t, Cleared(sid, agent))
    else Put(s, t, Cleared(sid, agent))
  }

  function Step(s: Chat, a: Action): Chat {
    match a
    case FindOpen(t, visitor, content, sid) => DoFindOpen(s, t, visitor, content, sid)
    case FindNone(t, visitor, tenant, content) =>
      if OpenOf(s.db.sessions, visitor) == {} then DoEnter(s, t, visitor, tenant, content) else s
    case FindFails(t, visitor, tenant, content) => DoEnter(s, t, visitor, tenant, content)
    case TakeSession(t) => if t in s.tasks && s.tasks[t].Entering? then DoTakeSession(s, t) else s
    case Insert(t) => if t in s.tasks && s.tasks[t].Inserting? then DoInsert(s, t) else s
    case BeginSend(t, d) => if t in s.tasks || d.from == FromVisitor then s else Put(s, t, Ready(d, 0))
    case ReadMax(t) => if t in s.tasks && s.tasks[t].Ready? then DoReadMax(s, t) else s
    case TakeId(t) => if t in s.tasks && s.tasks[t].HasSeq? then DoTakeId(s, t) else s
    case Commit(t, created, lastOk) => if t in s.tasks && s.tasks[t].HasId? then DoCommit(s, t, created, lastOk) else s
    case Abort(t) =>
      if t in s.tasks && Uncommitted(s.tasks[t]) then Drop(s, t) else s
    case CountUnread(t, ok) => if t in s.tasks && s.tasks[t].Saved? then DoCountUnread(s, t, ok) else s
    case Accept(t, sid, agent) => DoAccept(s, t, sid, agent)
    case ResetUnread(t, ok) => if t in s.tasks && s.tasks[t].Accepted? then DoResetUnread(s, t, ok) else s
    case FetchReply(t) =>
      if t in s.tasks && s.tasks[t].Cleared? && s.tasks[t].session in s.db.sessions then
        var Cleared(sid, agent) := s.tasks[t];
        Put(s, t, Replied(sid, agent, s.db.sessions[sid]))
      else s
    case Close(sid, reason) => s.(db := s.db.(sessions := WithClosed(s.db.sessions, sid, reason)))
    case Read(sid, upTo) => s.(db := s.db.(log := MarkRead(s.db.log, sid, upTo)))
  }

  // The run of a list of actions.
  function Run(s: Chat, trace: seq<Action>): Chat {
    if trace == [] then s else Step(Run(s, trace[..|trace| - 1]), trace[|trace| - 1])
  }
}
