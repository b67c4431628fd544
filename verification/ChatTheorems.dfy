/**
 What clients, agents and visitors can rely on in every run of the chat server, however the
 steps of concurrent handlers interleave. Each theorem speaks of the tables alone.
 */
module ChatTheorems {
  import opened Tables
  import opened UserKeys
  import opened MessageLog
  import opened ChatServer
  import opened ChatOrder
  import opened ChatSessions
  import opened ChatIds

  ghost predicate Reachable(s: Chat) {
    exists trace :: s == Run(INIT, trace)
  }

  lemma InitOk()
    ensures OrderOk(INIT) && SessionsOk(INIT)
  {
    forall sid ensures Balanced(INIT, sid) {
      assert Owing(INIT.tasks, sid) == {};
    }
  }

  lemma ReachableOk(s: Chat)
    requires Reachable(s)
    ensures OrderOk(s) && SessionsOk(s)
  {
    var trace :| s == Run(INIT, trace);
    InitOk();
    RunKeepsOrder(INIT, trace);
    RunKeepsSessions(INIT, trace);
  }

  lemma ReachableIds(s: Chat)
    requires Reachable(s)
    ensures IdsOk(s)
  {
    var trace :| s == Run(INIT, trace);
    RunKeepsIds(INIT, trace);
  }

  lemma RowsInOrder(s: Chat, sid: int)
    requires Reachable(s)
    ensures InOrder(RowsOf(s.db.log, sid))
  {
    ReachableOk(s);
  }

  // Runs compose, so "later in the same run" is "after a further run".
  lemma {:induction false} RunsCompose(s: Chat, first: seq<Action>, next: seq<Action>)
    ensures Run(s, first + next) == Run(Run(s, first), next)
  {
    if next == [] {
      assert first + next == first;
    } else {
      var front := next[..|next| - 1];
      RunsCompose(s, first, front);
      assert (first + next)[..|first + next| - 1] == first + front;
    }
  }

  lemma StaysReachable(s: Chat, trace: seq<Action>)
    requires Reachable(s)
    ensures Reachable(Run(s, trace))
  {
    var before :| s == Run(INIT, before);
    RunsCompose(INIT, before, trace);
    assert Run(s, trace) == Run(INIT, before + trace);
  }

  /* ---- numbering ---- */

  // Sequence numbers of a session are exactly 1..n, whatever was sent concurrently or aborted.
  lemma NumberingHasNoGaps(s: Chat, sid: int)
    requires Reachable(s)
    ensures var rows := RowsOf(s.db.log, sid);
      && (forall k: nat :: Taken(s.db.log, sid, k) <==> 1 <= k <= |rows|)
      && (forall i, j :: 0 <= i < j < |rows| ==> rows[i].seqNum != rows[j].seqNum)
  {
    ReachableOk(s);
    var rows := RowsOf(s.db.log, sid);
    assert InOrder(rows);
    RowsOfMembers(s.db.log, sid);
    forall k: nat ensures Taken(s.db.log, sid, k) <==> 1 <= k <= |rows| {
      if 1 <= k <= |rows| {
        assert rows[k - 1] in rows;
      } else {
        assert forall m :: m in s.db.log && m.session == sid ==> m in rows;
      }
    }
  }

  // Inside a session the global id counter orders messages as the sequence numbers do.
  lemma IdOrderIsSeqOrder(s: Chat, a: Message, b: Message)
    requires Reachable(s) && a in s.db.log && b in s.db.log && a.session == b.session
    ensures a.id < b.id <==> a.seqNum < b.seqNum
    ensures a.id == b.id <==> a == b
  {
    ReachableOk(s);
    var rows := RowsOf(s.db.log, a.session);
    RowsOfMembers(s.db.log, a.session);
    assert InOrder(rows);
    var i :| 0 <= i < |rows| && rows[i] == a;
    var j :| 0 <= j < |rows| && rows[j] == b;
    assert rows[i].seqNum == i + 1 && rows[j].seqNum == j + 1;
  }

  /* ---- the table only grows ---- */

  lemma StepGrows(s: Chat, a: Action)
    requires OrderOk(s)
    ensures Grew(s.db.log, Step(s, a).db.log)
  {
  }

  lemma {:induction false} RunGrows(s: Chat, trace: seq<Action>)
    requires OrderOk(s)
    ensures Grew(s.db.log, Run(s, trace).db.log)
  {
    if trace != [] {
      var before := Run(s, trace[..|trace| - 1]);
      RunGrows(s, trace[..|trace| - 1]);
      RunKeepsOrder(s, trace[..|trace| - 1]);
      StepGrows(before, trace[|trace| - 1]);
      GrewTransitive(s.db.log, before.db.log, Run(s, trace).db.log);
    }
  }

  /* ---- read flags ---- */

  // The read messages of a session are its first w, and w never goes back.
  lemma ReadFlagsArePrefix(s: Chat, trace: seq<Action>, sid: int)
    requires Reachable(s)
    ensures var now, later := RowsOf(s.db.log, sid), RowsOf(Run(s, trace).db.log, sid);
      && (forall m :: m in now ==> (m.read <==> m.seqNum <= ReadCount(now)))
      && ReadCount(now) <= ReadCount(later)
      && |now| <= |later|
  {
    ReachableOk(s);
    assert InOrder(RowsOf(s.db.log, sid));
    RunGrows(s, trace);
    GrewRows(s.db.log, Run(s, trace).db.log, sid);
    GrewWatermark(RowsOf(s.db.log, sid), RowsOf(Run(s, trace).db.log, sid));
  }

  /* ---- sessions ---- */

  // The lifecycle: no row is ever lost, and each moves only forward.
  lemma SessionLifecycle(s: Chat, trace: seq<Action>, sid: int)
    requires Reachable(s) && sid in s.db.sessions
    ensures var now := s.db.sessions[sid];
      && (now.status == Pending ==> now.agent == 0)
      && (now.status == Active ==> now.agent > 0)
      && sid in Run(s, trace).db.sessions
      && var later := Run(s, trace).db.sessions[sid];
      && later.visitor == now.visitor
      && (now.status == Closed ==> later.status == Closed && later.agent == now.agent)
      && (now.status == Active ==> later.status != Pending && later.agent == now.agent)
      && (now.agent > 0 ==> later.agent == now.agent)
  {
    ReachableOk(s);
    RunKeepsSessions(s, trace);
    assert RowOk(s.db.sessions[sid]);
    assert RowMoved(s.db.sessions[sid], Run(s, trace).db.sessions[sid]);
  }

  // Accepting a session, among any number of agents trying to.
  predicate Wins(s: Chat, a: Action, sid: int) {
    && a.Accept? && a.session == sid && a.t !in s.tasks && a.agent > 0
    && sid in s.db.sessions && s.db.sessions[sid].status == Pending
  }

  ghost function WinCount(trace: seq<Action>, sid: int): nat {
    if trace == [] then 0
    else
      var front, last := trace[..|trace| - 1], trace[|trace| - 1];
      WinCount(front, sid) + (if Wins(Run(INIT, front), last, sid) then 1 else 0)
  }

  predicate Agented(sessions: map<int, Session>, sid: int) {
    sid in sessions && sessions[sid].agent > 0
  }

  // Only a winning accept writes an agent.
  lemma StepAssigns(s: Chat, a: Action, sid: int)
    requires SessionsOk(s)
    ensures var s' := Step(s, a);
      && (Wins(s, a, sid) ==> !Agented(s.db.sessions, sid) && Agented(s'.db.sessions, sid))
      && (Wins(s, a, sid) ==> s'.db.sessions[sid].agent == a.agent)
      && (!Wins(s, a, sid) ==> (Agented(s'.db.sessions, sid) <==> Agented(s.db.sessions, sid)))
  {
    if sid in s.db.sessions { assert RowOk(s.db.sessions[sid]); }
  }

  // At most one accept ever wins, and it wins exactly when the session ends up with an agent.
  lemma {:induction false} AtMostOneAcceptWins(trace: seq<Action>, sid: int)
    ensures WinCount(trace, sid) == if Agented(Run(INIT, trace).db.sessions, sid) then 1 else 0
  {
    if trace != [] {
      var front, last := trace[..|trace| - 1], trace[|trace| - 1];
      AtMostOneAcceptWins(front, sid);
      ReachableOk(Run(INIT, front));
      StepAssigns(Run(INIT, front), last, sid);
    }
  }

  // The winner's id is the agent from then on, in the table and in every session returned to an accept.
  lemma WinnerIsReturned(s: Chat, a: Action, trace: seq<Action>, t: nat)
    requires Reachable(s) && a.Accept? && Wins(s, a, a.session)
    ensures var later := Run(Step(s, a), trace);
      && a.session in later.db.sessions && later.db.sessions[a.session].agent == a.agent
      && (t in later.tasks && later.tasks[t].Replied? && later.tasks[t].session == a.session
          ==> later.tasks[t].reply.agent == a.agent && later.tasks[t].agent == a.agent)
  {
    ReachableOk(s);
    StepAssigns(s, a, a.session);
    StepKeepsSessions(s, a);
    RunKeepsSessions(Step(s, a), trace);
    var later := Run(Step(s, a), trace);
    assert RowOk(Step(s, a).db.sessions[a.session]);
    assert RowMoved(Step(s, a).db.sessions[a.session], later.db.sessions[a.session]);
    if t in later.tasks { assert SawOk(later.db.sessions, later.tasks[t]); }
  }

  /* ---- the unread counter ---- */

  // Conservation: nothing a handler counted is lost except by an accept's reset or a refused increment.
  lemma UnreadIsConserved(s: Chat, sid: int)
    requires Reachable(s)
    ensures var tally := TallyOf(s.tallies, sid);
      tally.counted == UnreadOf(s.db.sessions, sid) + tally.erased + tally.failed + |Owing(s.tasks, sid)|
    ensures !Agented(s.db.sessions, sid) ==> UnreadOf(s.db.sessions, sid) == 0
  {
    ReachableOk(s);
    assert Balanced(s, sid);
    if sid in s.db.sessions { assert RowOk(s.db.sessions[sid]); }
  }

  lemma StepReachable(s: Chat, a: Action)
    requires Reachable(s)
    ensures Reachable(Step(s, a))
  {
    StaysReachable(s, [a]);
    assert [a][..0] == [] && Run(s, [a]) == Step(s, a);
  }

  lemma Then(s: Chat, a: Action) returns (s': Chat)
    requires Reachable(s)
    ensures Reachable(s') && s' == Step(s, a)
  {
    StepReachable(s, a);
    s' := Step(s, a);
  }

  /* ---- the last-message column ---- */

  predicate LastOk(db: Db) {
    forall sid :: sid in db.sessions ==> LastIn(db.log, sid, db.sessions[sid].lastMsg)
  }

  predicate LastIn(log: seq<Message>, sid: int, id: int) {
    id == 0 || exists m :: m in log && m.session == sid && m.id == id
  }

  lemma LastInMarked(log: seq<Message>, sid: int, upTo: int, other: int, id: int)
    requires LastIn(log, other, id)
    ensures LastIn(MarkRead(log, sid, upTo), other, id)
  {
    if id != 0 {
      var m :| m in log && m.session == other && m.id == id;
      var i :| 0 <= i < |log| && log[i] == m;
      assert MarkRead(log, sid, upTo)[i] in MarkRead(log, sid, upTo);
    }
  }

  lemma CommitMovesLast(s: Chat, t: nat, created: int, lastOk: bool)
    requires OrderOk(s) && LastOk(s.db) && t in s.tasks && s.tasks[t].HasId?
    ensures var s' := DoCommit(s, t, created, lastOk); LastOk(s'.db) && LastForward(s.db.sessions, s'.db.sessions)
  {
    var HasId(d, saw, seqNum, id) := s.tasks[t];
    var sid, log := d.session, s.db.log;
    assert HeldOk(log, s.db.nextMessage, s.tasks[t]);
    if !Taken(log, sid, seqNum) {
      CommitKeepsLog(log, s.db.nextMessage, d, seqNum, id, created);
      RowsOfMembers(log, sid);
      var row := Row(d, seqNum, id, created);
      assert row in log + [row];
      forall other | other in s.db.sessions ensures LastIn(log + [row], other, s.db.sessions[other].lastMsg) {
        assert LastIn(log, other, s.db.sessions[other].lastMsg);
      }
    }
  }

  predicate LastForward(a: map<int, Session>, b: map<int, Session>) {
    forall sid :: sid in a ==> sid in b && a[sid].lastMsg <= b[sid].lastMsg
  }

  lemma ReadMovesLast(s: Chat, sid: int, upTo: int)
    requires LastOk(s.db)
    ensures LastOk(Step(s, Read(sid, upTo)).db)
  {
    forall other | other in s.db.sessions
      ensures LastIn(MarkRead(s.db.log, sid, upTo), other, s.db.sessions[other].lastMsg)
    {
      LastInMarked(s.db.log, sid, upTo, other, s.db.sessions[other].lastMsg);
    }
  }

  // Other steps leave the log and every row's last message alone; a new row has none.
  predicate SameLast(a: Db, b: Db) {
    && b.log == a.log && LastForward(a.sessions, b.sessions)
    && forall sid :: sid in b.sessions ==>
         b.sessions[sid].lastMsg == if sid in a.sessions then a.sessions[sid].lastMsg else 0
  }

  lemma OtherSparesLast(s: Chat, a: Action)
    requires !a.Commit? && !a.Read?
    ensures SameLast(s.db, Step(s, a).db)
  {
  }

  lemma StepMovesLast(s: Chat, a: Action)
    requires OrderOk(s) && LastOk(s.db)
    ensures LastOk(Step(s, a).db) && LastForward(s.db.sessions, Step(s, a).db.sessions)
  {
    if a.Commit? {
      if a.t in s.tasks && s.tasks[a.t].HasId? { CommitMovesLast(s, a.t, a.created, a.lastOk); }
    } else if a.Read? {
      ReadMovesLast(s, a.session, a.upTo);
    } else {
      OtherSparesLast(s, a);
    }
  }

  lemma {:induction false} RunMovesLast(s: Chat, trace: seq<Action>)
    requires OrderOk(s) && LastOk(s.db)
    ensures LastOk(Run(s, trace).db) && LastForward(s.db.sessions, Run(s, trace).db.sessions)
  {
    if trace != [] {
      RunMovesLast(s, trace[..|trace| - 1]);
      RunKeepsOrder(s, trace[..|trace| - 1]);
      StepMovesLast(Run(s, trace[..|trace| - 1]), trace[|trace| - 1]);
    }
  }

  // last_msg_id names a message of its own session and never goes back.
  lemma LastMessageMovesForward(s: Chat, trace: seq<Action>, sid: int)
    requires Reachable(s) && sid in s.db.sessions
    ensures LastIn(s.db.log, sid, s.db.sessions[sid].lastMsg)
    ensures sid in Run(s, trace).db.sessions && s.db.sessions[sid].lastMsg <= Run(s, trace).db.sessions[sid].lastMsg
  {
    var before :| s == Run(INIT, before);
    InitOk();
    RunMovesLast(INIT, before);
    ReachableOk(s);
    RunMovesLast(s, trace);
  }
}
