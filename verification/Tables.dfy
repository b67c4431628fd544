/**
 The two tables every node shares (sessions, messages) and the SQL statements the
 repositories run against them. A statement is atomic and sees committed rows; the
 message table is kept in commit order, and a row is only ever changed in its read flag.
 */
module Tables {
  import opened UserKeys

  datatype Option<+T> = None | Some(value: T)

  datatype Status = Pending | Active | Closed

  datatype Sender = FromVisitor | FromAgent | FromSystem

  datatype Session = Session(tenant: string, visitor: Int64, agent: Int64, status: Status,
                             unread: int, lastMsg: int, reason: string)

  // The sequence number is a COALESCE(MAX(seq_num), 0) + 1, so it is never negative. created is
  // the clock of the node that built the row, created_at.
  datatype Message = Message(id: int, session: int, seqNum: nat, from: Sender, sender: int,
                             content: string, created: int, read: bool)

  // The counters are those of the two tables' automatic ids.
  datatype Db = Db(sessions: map<int, Session>, log: seq<Message>, nextMessage: int, nextSession: int)

  /* ---- message statements ---- */

  // SELECT * WHERE session_id = sid
  function RowsOf(log: seq<Message>, sid: int): (rows: seq<Message>)
    ensures |rows| <= |log|
  {
    if log == [] then []
    else
      var last := log[|log| - 1];
      RowsOf(log[..|log| - 1], sid) + (if last.session == sid then [last] else [])
  }

  // SELECT COALESCE(MAX(seq_num), 0)
  function MaxSeq(rows: seq<Message>): (top: nat)
    ensures forall m :: m in rows ==> m.seqNum <= top
    ensures top == 0 || exists m :: m in rows && m.seqNum == top
  {
    if rows == [] then 0
    else
      var last := rows[|rows| - 1];
      var rest := MaxSeq(rows[..|rows| - 1]);
      assert rows == rows[..|rows| - 1] + [last];
      if last.seqNum > rest then last.seqNum else rest
  }

  // The unique index uk_session_seq already holds this pair.
  predicate Taken(log: seq<Message>, sid: int, seqNum: nat) {
    exists m :: m in log && m.session == sid && m.seqNum == seqNum
  }

  // UPDATE is_read = 1 WHERE session_id = sid AND id <= upTo
  function MarkRead(log: seq<Message>, sid: int, upTo: int): (log': seq<Message>)
    ensures |log'| == |log|
    ensures forall i :: 0 <= i < |log| ==>
      log'[i] == if log[i].session == sid && log[i].id <= upTo then log[i].(read := true) else log[i]
  {
    seq(|log|, i requires 0 <= i < |log| =>
      if log[i].session == sid && log[i].id <= upTo then log[i].(read := true) else log[i])
  }

  /* ---- session statements ---- */

  // WHERE visitor_id = visitor AND status != 'closed'
  function OpenOf(sessions: map<int, Session>, visitor: Int64): set<int> {
    set sid | sid in sessions && sessions[sid].visitor == visitor && sessions[sid].status != Closed
  }

  function NewSession(tenant: string, visitor: Int64): Session {
    Session(tenant, visitor, 0, Pending, 0, 0, "")
  }

  // WHERE id = sid AND status = 'pending'
  predicate Assignable(sessions: map<int, Session>, sid: int) {
    sid in sessions && sessions[sid].status == Pending
  }

  function WithAgent(sessions: map<int, Session>, sid: int, agent: Int64): map<int, Session> {
    if Assignable(sessions, sid) then sessions[sid := sessions[sid].(agent := agent, status := Active)]
    else sessions
  }

  function WithClosed(sessions: map<int, Session>, sid: int, reason: string): map<int, Session> {
    if sid in sessions then sessions[sid := sessions[sid].(status := Closed, reason := reason)] else sessions
  }

  function SetLast(sessions: map<int, Session>, sid: int, msgId: int): map<int, Session> {
    if sid in sessions then sessions[sid := sessions[sid].(lastMsg := msgId)] else sessions
  }

  function AddUnread(sessions: map<int, Session>, sid: int): map<int, Session> {
    if sid in sessions then sessions[sid := sessions[sid].(unread := sessions[sid].unread + 1)] else sessions
  }

  function ClearUnread(sessions: map<int, Session>, sid: int): map<int, Session> {
    if sid in sessions then sessions[sid := sessions[sid].(unread := 0)] else sessions
  }
}
