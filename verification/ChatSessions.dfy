/**
 The session table over every run: a status that only moves pending -> active -> closed (or
 pending -> closed), an agent written at most once, and an unread counter that balances against
 what handlers have counted, still owe and lost.
 */
module ChatSessions {
  import opened Tables
  import opened UserKeys
  import opened MessageLog
  import opened ChatServer

  predicate RowOk(r: Session) {
    && r.visitor > 0 && r.agent >= 0 && r.unread >= 0
    && (r.status == Pending ==> r.agent == 0)
    && (r.status == Active ==> r.agent > 0)
    && (r.agent == 0 ==> r.unread == 0)
  }

  predicate TableOk(sessions: map<int, Session>) {
    forall sid :: sid in sessions ==> RowOk(sessions[sid])
  }

  // What a task remembers of the session row is still what the row says.
  predicate SawOk(sessions: map<int, Session>, task: Task) {
    match task
    case Entering(_, visitor, _) => visitor > 0
    case Inserting(_, visitor, _, _) => visitor > 0
    case Ready(d, saw) => SawAgent(sessions, d, saw)
    case HasSeq(d, saw, _) => SawAgent(sessions, d, saw)
    case HasId(d, saw, _, _) => SawAgent(sessions, d, saw)
    case Saved(d, saw) => SawAgent(sessions, d, saw)
    case Accepted(sid, agent) => AgentIs(sessions, sid, agent)
    case Cleared(sid, agent) => AgentIs(sessions, sid, agent)
    case Replied(sid, agent, reply) =>
      AgentIs(sessions, sid, agent) && reply.agent == agent && reply.visitor == sessions[sid].visitor
  }

  predicate SawAgent(sessions: map<int, Session>, d: Draft, saw: Int64) {
    Counts(d, saw) ==> AgentIs(sessions, d.session, saw)
  }

  predicate AgentIs(sessions: map<int, Session>, sid: int, agent: Int64) {
    sid in sessions && sessions[sid].agent == agent && agent > 0
  }

  predicate TasksOk(sessions: map<int, Session>, tasks: map<nat, Task>) {
    forall t :: t in tasks ==> SawOk(sessions, tasks[t])
  }

  // Handlers between their commit and their increment.
  function Owing(tasks: map<nat, Task>, sid: int): set<nat> {
    set t | t in tasks && Owes(tasks[t], sid)
  }

  function UnreadOf(sessions: map<int, Session>, sid: int): int {
    if sid in sessions then sessions[sid].unread else 0
  }

  // Every counted message is in the counter, wiped by an accept, refused, or still owed.
  predicate Balanced(s: Chat, sid: int) {
    var tally := TallyOf(s.tallies, sid);
    && tally.counted == UnreadOf(s.db.sessions, sid) + tally.erased + tally.failed + |Owing(s.tasks, sid)|
    && tally.erased >= 0
    && ((sid in s.db.sessions ==> s.db.sessions[sid].agent == 0) ==> tally == Tally(0, 0, 0))
  }

  ghost predicate SessionsOk(s: Chat) {
    && TableOk(s.db.sessions)
    && TasksOk(s.db.sessions, s.tasks)
    && forall sid :: Balanced(s, sid)
  }

  /* ---- how a row may change ---- */

  predicate RowMoved(a: Session, b: Session) {
    && b.visitor == a.visitor && b.tenant == a.tenant
    && (a.status == Closed ==> b.status == Closed)
    && (a.status == Active ==> b.status != Pending)
    && (a.status != Pending ==> b.agent == a.agent)
    && (b.status == Pending ==> b.agent == a.agent)
  }

  predicate TableMoved(a: map<int, Session>, b: map<int, Session>) {
    forall sid :: sid in a ==> sid in b && RowMoved(a[sid], b[sid])
  }

  lemma TableMovedTransitive(a: map<int, Session>, b: map<int, Session>, c: map<int, Session>)
    requires TableMoved(a, b) && TableMoved(b, c)
    ensures TableMoved(a, c)
  {
    forall sid | sid in a ensures sid in c && RowMoved(a[sid], c[sid]) {
      assert RowMoved(a[sid], b[sid]) && RowMoved(b[sid], c[sid]);
    }
  }

  // An assigned agent stays: so whatever a task saw, it can still rely on.
  lemma MovedKeepsTasks(a: map<int, Session>, b: map<int, Session>, tasks: map<nat, Task>)
    requires TableOk(a) && TableMoved(a, b) && TasksOk(a, tasks)
    ensures TasksOk(b, tasks)
  {
    forall t | t in tasks ensures SawOk(b, tasks[t]) {
      assert SawOk(a, tasks[t]);
    }
  }

  /* ---- the statements ---- */

  lemma CreateKeepsTable(sessions: map<int, Session>, newId: int, tenant: string, visitor: Int64)
    requires TableOk(sessions) && newId !in sessions && visitor > 0
    ensures TableOk(sessions[newId := NewSession(tenant, visitor)])
    ensures TableMoved(sessions, sessions[newId := NewSession(tenant, visitor)])
  {
  }

  lemma AssignKeepsTable(sessions: map<int, Session>, sid: int, agent: Int64)
    requires TableOk(sessions) && agent > 0
    ensures TableOk(WithAgent(sessions, sid, agent)) && TableMoved(sessions, WithAgent(sessions, sid, agent))
  {
  }

  lemma CloseKeepsTable(sessions: map<int, Session>, sid: int, reason: string)
    requires TableOk(sessions)
    ensures TableOk(WithClosed(sessions, sid, reason)) && TableMoved(sessions, WithClosed(sessions, sid, reason))
  {
  }

  // Statements that touch only counters or the last-message id.
  lemma CountersKeepTable(sessions: map<int, Session>, after: map<int, Session>)
    requires TableOk(sessions) && after.Keys == sessions.Keys
    requires forall sid :: sid in sessions ==> RowOk(after[sid])
    requires forall sid :: sid in sessions ==>
      after[sid] == sessions[sid].(unread := after[sid].unread, lastMsg := after[sid].lastMsg)
    ensures TableOk(after) && TableMoved(sessions, after)
  {
  }

  /* ---- the handlers still owing ---- */

  lemma OwingUpdate(tasks: map<nat, Task>, t: nat, task: Task, sid: int)
    ensures |Owing(tasks[t := task], sid)|
         == |Owing(tasks, sid)| - (if t in Owing(tasks, sid) then 1 else 0) + (if Owes(task, sid) then 1 else 0)
  {
    OwingDrop(tasks, t, sid);
    var rest := Owing(tasks - {t}, sid);
    if Owes(task, sid) {
      assert Owing(tasks[t := task], sid) == rest + {t};
    } else {
      assert Owing(tasks[t := task], sid) == rest;
    }
  }

  lemma OwingDrop(tasks: map<nat, Task>, t: nat, sid: int)
    ensures |Owing(tasks - {t}, sid)| == |Owing(tasks, sid)| - (if t in Owing(tasks, sid) then 1 else 0)
  {
    assert Owing(tasks - {t}, sid) == Owing(tasks, sid) - {t};
  }

  /* ---- every step of the machine ---- */

  // Moving a task that owes nothing, before and after, leaves every balance alone.
  lemma QuietTask(s: Chat, t: nat, task: Task)
    requires forall sid :: Balanced(s, sid)
    requires !task.Saved? && (t in s.tasks ==> !s.tasks[t].Saved?)
    ensures forall sid :: Balanced(Put(s, t, task), sid)
    ensures forall sid :: Balanced(Drop(s, t), sid)
  {
    forall sid ensures Balanced(Put(s, t, task), sid) && Balanced(Drop(s, t), sid) {
      assert Balanced(s, sid);
      OwingUpdate(s.tasks, t, task, sid);
      OwingDrop(s.tasks, t, sid);
    }
  }

  lemma InsertKeeps(s: Chat, t: nat)
    requires SessionsOk(s) && t in s.tasks && s.tasks[t].Inserting?
    ensures var s' := DoInsert(s, t); SessionsOk(s') && TableMoved(s.db.sessions, s'.db.sessions)
  {
    var Inserting(tenant, visitor, content, sid) := s.tasks[t];
    assert SawOk(s.db.sessions, s.tasks[t]);
    var s' := DoInsert(s, t);
    if sid in s.db.sessions {
      QuietTask(s, t, s.tasks[t]);
    } else {
      CreateKeepsTable(s.db.sessions, sid, tenant, visitor);
      MovedKeepsTasks(s.db.sessions, s'.db.sessions, s.tasks);
      var s1 := s.(db := s'.db);
      forall other ensures Balanced(s1, other) {
        assert Balanced(s, other);
      }
      QuietTask(s1, t, s'.tasks[t]);
    }
  }

  lemma CommitKeeps(s: Chat, t: nat, created: int, lastOk: bool)
    requires SessionsOk(s) && t in s.tasks && s.tasks[t].HasId?
    ensures var s' := DoCommit(s, t, created, lastOk); SessionsOk(s') && TableMoved(s.db.sessions, s'.db.sessions)
  {
    var HasId(d, saw, seqNum, id) := s.tasks[t];
    assert SawOk(s.db.sessions, s.tasks[t]);
    var s' := DoCommit(s, t, created, lastOk);
    if Taken(s.db.log, d.session, seqNum) {
      QuietTask(s, t, Ready(d, saw));
    } else {
      CountersKeepTable(s.db.sessions, s'.db.sessions);
      MovedKeepsTasks(s.db.sessions, s'.db.sessions, s.tasks);
      assert SawOk(s'.db.sessions, Saved(d, saw));
      forall sid ensures Balanced(s', sid) {
        assert Balanced(s, sid);
        OwingUpdate(s.tasks, t, Saved(d, saw), sid);
      }
    }
  }

  lemma CountUnreadKeeps(s: Chat, t: nat, ok: bool)
    requires SessionsOk(s) && t in s.tasks && s.tasks[t].Saved?
    ensures var s' := DoCountUnread(s, t, ok); SessionsOk(s') && TableMoved(s.db.sessions, s'.db.sessions)
  {
    var Saved(d, saw) := s.tasks[t];
    assert SawOk(s.db.sessions, s.tasks[t]);
    var s' := DoCountUnread(s, t, ok);
    CountersKeepTable(s.db.sessions, s'.db.sessions);
    MovedKeepsTasks(s.db.sessions, s'.db.sessions, s.tasks);
    forall sid ensures Balanced(s', sid) {
      assert Balanced(s, sid);
      OwingDrop(s.tasks, t, sid);
    }
  }

  lemma AcceptKeeps(s: Chat, t: nat, sid: int, agent: Int64)
    requires SessionsOk(s)
    ensures var s' := DoAccept(s, t, sid, agent); SessionsOk(s') && TableMoved(s.db.sessions, s'.db.sessions)
  {
    var s' := DoAccept(s, t, sid, agent);
    if s' != s {
      AssignKeepsTable(s.db.sessions, sid, agent);
      MovedKeepsTasks(s.db.sessions, s'.db.sessions, s.tasks);
      var s1 := s.(db := s'.db);
      forall other ensures Balanced(s1, other) {
        assert Balanced(s, other);
      }
      QuietTask(s1, t, Accepted(sid, agent));
    }
  }

  lemma ResetKeeps(s: Chat, t: nat, ok: bool)
    requires SessionsOk(s) && t in s.tasks && s.tasks[t].Accepted?
    ensures var s' := DoResetUnread(s, t, ok); SessionsOk(s') && TableMoved(s.db.sessions, s'.db.sessions)
  {
    var Accepted(sid, agent) := s.tasks[t];
    assert SawOk(s.db.sessions, s.tasks[t]);
    var s' := DoResetUnread(s, t, ok);
    CountersKeepTable(s.db.sessions, s'.db.sessions);
    MovedKeepsTasks(s.db.sessions, s'.db.sessions, s.tasks);
    assert SawOk(s'.db.sessions, Cleared(sid, agent));
    var s1 := Chat(s'.db, s.tasks, s'.tallies);
    forall other ensures Balanced(s1, other) {
      assert Balanced(s, other);
    }
    QuietTask(s1, t, Cleared(sid, agent));
  }

  lemma CloseKeeps(s: Chat, sid: int, reason: string)
    requires SessionsOk(s)
    ensures var s' := Step(s, Close(sid, reason)); SessionsOk(s') && TableMoved(s.db.sessions, s'.db.sessions)
  {
    var s' := Step(s, Close(sid, reason));
    CloseKeepsTable(s.db.sessions, sid, reason);
    MovedKeepsTasks(s.db.sessions, s'.db.sessions, s.tasks);
    forall other ensures Balanced(s', other) {
      assert Balanced(s, other);
    }
  }

  // The remaining steps leave the session table alone.
  // One task moves on or goes, and it neither counted anything before nor has to now.
  predicate Quiet(s: Chat, s': Chat, t: nat) {
    && s'.db.sessions == s.db.sessions && s'.tallies == s.tallies
    && (t in s.tasks ==> !s.tasks[t].Saved?)
    && (s'.tasks == s.tasks - {t}
        || (t in s'.tasks && s'.tasks == s.tasks[t := s'.tasks[t]]
            && !s'.tasks[t].Saved? && SawOk(s.db.sessions, s'.tasks[t])))
  }

  lemma QuietStep(s: Chat, s': Chat, t: nat)
    requires SessionsOk(s) && Quiet(s, s', t)
    ensures SessionsOk(s')
  {
    QuietTask(s, t, if t in s'.tasks then s'.tasks[t] else Accepted(0, 0));
    forall sid ensures Balanced(s', sid) {
      assert Balanced(if t in s'.tasks then Put(s, t, s'.tasks[t]) else Drop(s, t), sid);
    }
  }

  lemma FindIsQuiet(s: Chat, a: Action)
    requires a.FindOpen? || a.FindNone? || a.FindFails? || a.BeginSend?
    ensures Step(s, a) == s || Quiet(s, Step(s, a), a.t)
  {
    if a.FindOpen? && a.session in s.db.sessions && Step(s, a) != s { assert a.t in Step(s, a).tasks; }
  }

  lemma TaskIsQuiet(s: Chat, a: Action)
    requires TasksOk(s.db.sessions, s.tasks)
    requires a.TakeSession? || a.ReadMax? || a.TakeId? || a.Abort? || a.FetchReply?
    ensures Step(s, a) == s || Quiet(s, Step(s, a), a.t)
  {
    if a.t in s.tasks { assert SawOk(s.db.sessions, s.tasks[a.t]); }
  }

  lemma ReadKeeps(s: Chat, sid: int, upTo: int)
    requires SessionsOk(s)
    ensures SessionsOk(Step(s, Read(sid, upTo)))
  {
    assert forall other :: Balanced(s, other) ==> Balanced(Step(s, Read(sid, upTo)), other);
  }

  lemma QuietKeepsSessions(s: Chat, a: Action)
    requires SessionsOk(s)
    requires a.FindOpen? || a.FindNone? || a.FindFails? || a.BeginSend? || a.TakeSession? || a.ReadMax? || a.TakeId? || a.Abort?
      || a.FetchReply?
    ensures SessionsOk(Step(s, a)) && Step(s, a).db.sessions == s.db.sessions
  {
    if a.FindOpen? || a.FindNone? || a.FindFails? || a.BeginSend? { FindIsQuiet(s, a); } else { TaskIsQuiet(s, a); }
    if Step(s, a) != s { QuietStep(s, Step(s, a), a.t); }
  }

  lemma StepKeepsSessions(s: Chat, a: Action)
    requires SessionsOk(s)
    ensures SessionsOk(Step(s, a)) && TableMoved(s.db.sessions, Step(s, a).db.sessions)
  {
    match a
    case Insert(t) => if t in s.tasks && s.tasks[t].Inserting? { InsertKeeps(s, t); }
    case Commit(t, created, lastOk) => if t in s.tasks && s.tasks[t].HasId? { CommitKeeps(s, t, created, lastOk); }
    case CountUnread(t, ok) => if t in s.tasks && s.tasks[t].Saved? { CountUnreadKeeps(s, t, ok); }
    case Accept(t, sid, agent) => AcceptKeeps(s, t, sid, agent);
    case ResetUnread(t, ok) => if t in s.tasks && s.tasks[t].Accepted? { ResetKeeps(s, t, ok); }
    case Close(sid, reason) => CloseKeeps(s, sid, reason);
    case Read(sid, upTo) => ReadKeeps(s, sid, upTo);
    case _ => QuietKeepsSessions(s, a);
  }

  lemma {:induction false} RunKeepsSessions(s: Chat, trace: seq<Action>)
    requires SessionsOk(s)
    ensures SessionsOk(Run(s, trace)) && TableMoved(s.db.sessions, Run(s, trace).db.sessions)
  {
    if trace != [] {
      var before := Run(s, trace[..|trace| - 1]);
      RunKeepsSessions(s, trace[..|trace| - 1]);
      StepKeepsSessions(before, trace[|trace| - 1]);
      TableMovedTransitive(s.db.sessions, before.db.sessions, Run(s, trace).db.sessions);
    }
  }
}
