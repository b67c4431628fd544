/**
 What a handler's steps do to the tables in every reachable state, row by row and column by
 column, and what they leave alone. A handler is idle between two of its requests.
 */
module Effects {
  import opened Tables
  import opened UserKeys
  import opened MessageLog
  import opened ChatServer
  import opened ChatOrder
  import opened ChatSessions
  import opened ChatIds
  import opened ChatTheorems

  // Only this row may differ.
  predicate OnlyRow(a: map<int, Session>, b: map<int, Session>, sid: int) {
    b.Keys == a.Keys && forall other :: other in a && other != sid ==> b[other] == a[other]
  }

  /* ---- finding and creating a session ---- */

  // A lookup puts an idle handler before exactly the visitor's sessions that are not closed, and
  // answers "none" exactly when all of the visitor's are.
  lemma LookupFindsOpen(s: Chat, t: nat, visitor: Int64, tenant: string, content: string, sid: int)
    requires t !in s.tasks && visitor > 0
    ensures var s' := Step(s, FindOpen(t, visitor, content, sid));
      if sid in s.db.sessions && s.db.sessions[sid].visitor == visitor && s.db.sessions[sid].status != Closed
      then s' == s.(tasks := s.tasks[t := Ready(Draft(sid, FromVisitor, visitor, content), s.db.sessions[sid].agent)])
      else s' == s
    ensures t in Step(s, FindNone(t, visitor, tenant, content)).tasks <==>
      (forall other :: other in s.db.sessions && s.db.sessions[other].visitor == visitor ==>
        s.db.sessions[other].status == Closed)
  {
    var open := OpenOf(s.db.sessions, visitor);
    if forall other :: other in s.db.sessions && s.db.sessions[other].visitor == visitor ==>
         s.db.sessions[other].status == Closed {
      assert forall other :: other !in open;
      assert open == {};
    } else {
      var other :| other in s.db.sessions && s.db.sessions[other].visitor == visitor
        && s.db.sessions[other].status != Closed;
      assert other in open;
    }
  }

  // Closing closes, keeps the agent, and is final: however the run goes on, no lookup puts a
  // handler before the session again.
  lemma {:induction false} ClosedIsNotFound(s: Chat, sid: int, reason: string, trace: seq<Action>, a: Action)
    requires Reachable(s) && sid in s.db.sessions && a.FindOpen? && a.session == sid
    ensures var closed := Step(s, Close(sid, reason));
      && sid in closed.db.sessions
      && closed.db.sessions[sid] == s.db.sessions[sid].(status := Closed, reason := reason)
      && OnlyRow(s.db.sessions, closed.db.sessions, sid)
    ensures var later := Run(Step(s, Close(sid, reason)), trace);
      && sid in later.db.sessions && later.db.sessions[sid].status == Closed
      && later.db.sessions[sid].agent == s.db.sessions[sid].agent
      && Step(later, a) == later
  {
    StepReachable(s, Close(sid, reason));
    SessionLifecycle(Step(s, Close(sid, reason)), trace, sid);
  }

  // The id a handler inserts under is nobody's, so its row always appears: pending, unassigned,
  // nothing unread, beside all others.
  lemma InsertOpensSession(s: Chat, t: nat, tenant: string, visitor: Int64, content: string, sid: int)
    requires Reachable(s) && t in s.tasks && s.tasks[t] == Inserting(tenant, visitor, content, sid)
    ensures sid !in s.db.sessions
    ensures var s' := Step(s, Insert(t));
      && s'.db.sessions == s.db.sessions[sid := Session(tenant, visitor, 0, Pending, 0, 0, "")]
      && s'.db.log == s.db.log
      && s'.tasks == s.tasks[t := Ready(Draft(sid, FromVisitor, visitor, content), 0)]
  {
    ReachableIds(s);
  }

  /* ---- accepting ---- */

  // An accept by an idle handler takes a session exactly when its row is pending; otherwise it
  // changes nothing. Taken, the row has this agent and is active, whatever else it says.
  lemma AcceptTakesPending(s: Chat, t: nat, sid: int, agent: Int64)
    requires Reachable(s) && t !in s.tasks && agent > 0
    ensures var s' := Step(s, Accept(t, sid, agent));
      if sid in s.db.sessions && s.db.sessions[sid].status == Pending then
        && sid in s'.db.sessions && s'.db.log == s.db.log && OnlyRow(s.db.sessions, s'.db.sessions, sid)
        && s'.db.sessions[sid] == s.db.sessions[sid].(agent := agent, status := Active)
        && s'.tasks == s.tasks[t := Accepted(sid, agent)]
      else s' == s
    ensures Wins(s, Accept(t, sid, agent), sid) <==> sid in s.db.sessions && s.db.sessions[sid].status == Pending
  {
  }

  // The reset that follows zeroes the counter of the session its handler won, and that row is
  // there, whoever else wrote to it meanwhile.
  lemma ResetZeroes(s: Chat, t: nat, sid: int, agent: Int64, ok: bool)
    requires Reachable(s) && t in s.tasks && s.tasks[t] == Accepted(sid, agent)
    ensures sid in s.db.sessions && s.db.sessions[sid].agent == agent
    ensures var s' := Step(s, ResetUnread(t, ok));
      && sid in s'.db.sessions && s'.db.log == s.db.log && OnlyRow(s.db.sessions, s'.db.sessions, sid)
      && s'.db.sessions[sid] == if ok then s.db.sessions[sid].(unread := 0) else s.db.sessions[sid]
  {
    ReachableOk(s);
    assert SawOk(s.db.sessions, s.tasks[t]);
  }

  /* ---- a message ---- */

  predicate Free(log: seq<Message>, sid: int, seqNum: nat) {
    forall m :: m in log && m.session == sid ==> m.seqNum != seqNum
  }

  lemma FreeOnTop(s: Chat, d: Draft, seqNum: nat, id: int)
    requires Reachable(s) && SeqHeld(s.db.log, d.session, seqNum)
    requires IdHeld(s.db.log, s.db.nextMessage, d.session, seqNum, id) && Free(s.db.log, d.session, seqNum)
    ensures forall m :: m in s.db.log && m.session == d.session ==> m.seqNum < seqNum && m.id < id
  {
    ReachableOk(s);
    CommitKeepsLog(s.db.log, s.db.nextMessage, d, seqNum, id, 0);
    RowsOfMembers(s.db.log, d.session);
    NumberingHasNoGaps(s, d.session);
    assert forall m :: m in s.db.log && m.session == d.session ==> Taken(s.db.log, d.session, m.seqNum);
  }

  lemma CommitStep(s: Chat, t: nat, d: Draft, saw: Int64, seqNum: nat, id: int, created: int, lastOk: bool)
    requires t in s.tasks && s.tasks[t] == HasId(d, saw, seqNum, id)
    ensures var s' := Step(s, Commit(t, created, lastOk));
      if Taken(s.db.log, d.session, seqNum) then s'.db == s.db && t !in s'.tasks
      else s'.db == s.db.(log := s.db.log + [Row(d, seqNum, id, created)],
                          sessions := if lastOk then SetLast(s.db.sessions, d.session, id) else s.db.sessions)
           && s'.tasks == s.tasks[t := Saved(d, saw)]
  {
  }

  // A commit stores what was drafted, unread, under the number and id the handler holds, exactly
  // when the number is still free; then it is the next one and the id is above all of the
  // session. An update that works leaves last_msg_id at this row.
  lemma CommitStoresDraft(s: Chat, t: nat, d: Draft, saw: Int64, seqNum: nat, id: int, created: int, lastOk: bool)
    requires Reachable(s) && t in s.tasks && s.tasks[t] == HasId(d, saw, seqNum, id)
    ensures var s' := Step(s, Commit(t, created, lastOk));
      if forall m :: m in s.db.log && m.session == d.session ==> m.seqNum != seqNum then
        && s'.db.log == s.db.log + [Message(id, d.session, seqNum, d.from, d.sender, d.content, created, false)]
        && OnlyRow(s.db.sessions, s'.db.sessions, d.session)
        && (d.session in s.db.sessions ==>
              s'.db.sessions[d.session] == if lastOk then s.db.sessions[d.session].(lastMsg := id) else s.db.sessions[d.session])
        && (forall m :: m in s.db.log && m.session == d.session ==> m.seqNum < seqNum && m.id < id)
      else s'.db == s.db && t !in s'.tasks
  {
    ReachableOk(s);
    assert HeldOk(s.db.log, s.db.nextMessage, s.tasks[t]);
    CommitStep(s, t, d, saw, seqNum, id, created, lastOk);
    if Free(s.db.log, d.session, seqNum) { FreeOnTop(s, d, seqNum, id); }
  }

  // After its commit a handler raises the counter by one exactly when the message is a visitor's
  // and the handler had seen an agent; the row is still there and still that agent's.
  lemma CountRaisesUnread(s: Chat, t: nat, d: Draft, saw: Int64)
    requires Reachable(s) && t in s.tasks && s.tasks[t] == Saved(d, saw)
    ensures var s' := Step(s, CountUnread(t, true));
      if d.from == FromVisitor && saw > 0 then
        && d.session in s.db.sessions && s.db.sessions[d.session].agent == saw
        && OnlyRow(s.db.sessions, s'.db.sessions, d.session)
        && s'.db.sessions[d.session] == s.db.sessions[d.session].(unread := s.db.sessions[d.session].unread + 1)
      else s'.db.sessions == s.db.sessions
  {
    ReachableOk(s);
    assert SawOk(s.db.sessions, s.tasks[t]);
  }

  /* ---- who wrote a message ---- */

  predicate ByItsVisitor(sessions: map<int, Session>, from: Sender, sid: int, sender: int) {
    from == FromVisitor ==> sid in sessions && sessions[sid].visitor == sender
  }

  predicate Drafted(task: Task) {
    task.Ready? || task.HasSeq? || task.HasId?
  }

  predicate WrittenOk(s: Chat) {
    && (forall m :: m in s.db.log ==> ByItsVisitor(s.db.sessions, m.from, m.session, m.sender))
    && (forall t :: t in s.tasks && Drafted(s.tasks[t]) ==>
          var d := s.tasks[t].draft; ByItsVisitor(s.db.sessions, d.from, d.session, d.sender))
  }

  lemma StepKeepsVisitors(s: Chat, a: Action)
    requires Reachable(s)
    ensures forall sid :: sid in s.db.sessions ==>
      sid in Step(s, a).db.sessions && Step(s, a).db.sessions[sid].visitor == s.db.sessions[sid].visitor
  {
    forall sid | sid in s.db.sessions
      ensures sid in Step(s, a).db.sessions && Step(s, a).db.sessions[sid].visitor == s.db.sessions[sid].visitor
    {
      assert [a][..0] == [] && Run(s, [a]) == Step(s, a);
      SessionLifecycle(s, [a], sid);
    }
  }

  // A step that adds no draft and no row changes neither who wrote what nor what is about to be.
  lemma StepKeepsLogWritten(s: Chat, a: Action)
    requires Reachable(s) && WrittenOk(s)
    ensures forall m :: m in Step(s, a).db.log ==> ByItsVisitor(Step(s, a).db.sessions, m.from, m.session, m.sender)
  {
    StepKeepsVisitors(s, a);
    forall m | m in Step(s, a).db.log ensures ByItsVisitor(Step(s, a).db.sessions, m.from, m.session, m.sender) {
      if a.Read? {
        MarkReadMembers(s.db.log, a.session, a.upTo);
      } else if m !in s.db.log {
        assert Drafted(s.tasks[a.t]);
      }
    }
  }

  lemma StepKeepsDraftsWritten(s: Chat, a: Action)
    requires Reachable(s) && WrittenOk(s)
    ensures forall t :: t in Step(s, a).tasks && Drafted(Step(s, a).tasks[t]) ==>
      var d := Step(s, a).tasks[t].draft; ByItsVisitor(Step(s, a).db.sessions, d.from, d.session, d.sender)
  {
    StepKeepsVisitors(s, a);
    var s' := Step(s, a);
    forall t | t in s'.tasks && Drafted(s'.tasks[t])
      ensures var d := s'.tasks[t].draft; ByItsVisitor(s'.db.sessions, d.from, d.session, d.sender)
    {
      if t in s.tasks && Drafted(s.tasks[t]) { assert s'.tasks[t].draft == s.tasks[t].draft; }
    }
  }

  lemma {:induction false} RunKeepsWritten(trace: seq<Action>)
    ensures WrittenOk(Run(INIT, trace))
  {
    if trace != [] {
      var s := Run(INIT, trace[..|trace| - 1]);
      RunKeepsWritten(trace[..|trace| - 1]);
      StepKeepsLogWritten(s, trace[|trace| - 1]);
      StepKeepsDraftsWritten(s, trace[|trace| - 1]);
    }
  }

  // In every reachable state a message stored as a visitor's was sent by the visitor of its own
  // session, and so was every one about to be stored.
  lemma VisitorMessagesAreTheVisitors(s: Chat)
    requires Reachable(s)
    ensures forall m :: m in s.db.log && m.from == FromVisitor ==>
      m.session in s.db.sessions && s.db.sessions[m.session].visitor == m.sender
    ensures forall t :: t in s.tasks && s.tasks[t].HasId? && s.tasks[t].draft.from == FromVisitor ==>
      s.tasks[t].draft.session in s.db.sessions
      && s.db.sessions[s.tasks[t].draft.session].visitor == s.tasks[t].draft.sender
  {
    var trace :| s == Run(INIT, trace);
    RunKeepsWritten(trace);
    assert forall t :: t in s.tasks && s.tasks[t].HasId? ==> Drafted(s.tasks[t]);
  }
}
