/**
 When the agent's unread counter can be trusted. Two things make it show too little: the database
 refusing an increment, and the reset that follows an accept. Both are told from the run.
 */
module UnreadCounter {
  import opened Tables
  import opened UserKeys
  import opened ChatServer
  import opened ChatSessions
  import opened ChatTheorems
  import opened OpenSessions

  // A handler that saw the session's agent reaches its increment, which takes effect if ok.
  predicate Increments(s: Chat, a: Action, sid: int, ok: bool) {
    a.CountUnread? && a.ok == ok && a.t in s.tasks && Owes(s.tasks[a.t], sid)
  }

  // An accept of the session reaches its reset, which takes effect.
  predicate Resets(s: Chat, a: Action, sid: int) {
    a.ResetUnread? && a.ok && a.t in s.tasks && s.tasks[a.t].Accepted? && s.tasks[a.t].session == sid
  }

  // Accepts of the session that have assigned an agent and not yet come to their reset.
  function Unreset(s: Chat, sid: int): set<nat> {
    set t | t in s.tasks && s.tasks[t].Accepted? && s.tasks[t].session == sid
  }

  /* ---- along a run, one step at a time ---- */

  predicate Counted(trace: seq<Action>, sid: int) {
    trace != [] && (Counted(trace[..|trace| - 1], sid)
                    || Increments(Run(INIT, trace[..|trace| - 1]), trace[|trace| - 1], sid, true))
  }

  predicate Refused(trace: seq<Action>, sid: int) {
    trace != [] && (Refused(trace[..|trace| - 1], sid)
                    || Increments(Run(INIT, trace[..|trace| - 1]), trace[|trace| - 1], sid, false))
  }

  predicate Wiped(trace: seq<Action>, sid: int) {
    trace != [] && (Wiped(trace[..|trace| - 1], sid)
                    || (Counted(trace[..|trace| - 1], sid)
                        && Resets(Run(INIT, trace[..|trace| - 1]), trace[|trace| - 1], sid)))
  }

  // What the tables and tasks say about the steps behind them. At most one accept of the session
  // is ever before its reset, and until then no count has been lost.
  predicate Tells(s: Chat, sid: int, counted: bool, wiped: bool, refused: bool) {
    && (counted ==> Agented(s.db.sessions, sid))
    && (UnreadOf(s.db.sessions, sid) > 0 ==> counted)
    && (forall t, u :: t in Unreset(s, sid) && u in Unreset(s, sid) ==> t == u)
    && (Unreset(s, sid) != {} ==> Agented(s.db.sessions, sid))
    && (counted && Unreset(s, sid) != {} ==> UnreadOf(s.db.sessions, sid) > 0)
    && (TallyOf(s.tallies, sid).erased > 0 <==> wiped)
    && (TallyOf(s.tallies, sid).failed > 0 <==> refused)
  }

  lemma CountTells(s: Chat, t: nat, ok: bool, sid: int, counted: bool, wiped: bool, refused: bool)
    requires SessionsOk(s) && Tells(s, sid, counted, wiped, refused)
    ensures var a := CountUnread(t, ok);
      Tells(Step(s, a), sid, counted || Increments(s, a, sid, true), wiped, refused || Increments(s, a, sid, false))
  {
    if t in s.tasks && s.tasks[t].Saved? {
      assert SawOk(s.db.sessions, s.tasks[t]);
      if sid in s.db.sessions { assert RowOk(s.db.sessions[sid]); }
      assert Unreset(Step(s, CountUnread(t, ok)), sid) == Unreset(s, sid);
    }
  }

  lemma ResetTells(s: Chat, t: nat, ok: bool, sid: int, counted: bool, wiped: bool, refused: bool)
    requires SessionsOk(s) && Tells(s, sid, counted, wiped, refused)
    ensures var a := ResetUnread(t, ok);
      Tells(Step(s, a), sid, counted, wiped || (counted && Resets(s, a, sid)), refused)
  {
    if t in s.tasks && s.tasks[t].Accepted? {
      ResetMoves(s, t, ok, sid);
      assert Balanced(s, sid);
      if t in Unreset(s, sid) { assert Unreset(s, sid) - {t} == {}; } else { assert Unreset(s, sid) - {t} == Unreset(s, sid); }
    }
  }

  lemma ResetMoves(s: Chat, t: nat, ok: bool, sid: int)
    requires SessionsOk(s) && t in s.tasks && s.tasks[t].Accepted?
    ensures var s', tally := Step(s, ResetUnread(t, ok)), TallyOf(s.tallies, sid);
      && Unreset(s', sid) == Unreset(s, sid) - {t}
      && (Agented(s'.db.sessions, sid) <==> Agented(s.db.sessions, sid))
      && (if ok && t in Unreset(s, sid)
          then UnreadOf(s'.db.sessions, sid) == 0
               && TallyOf(s'.tallies, sid) == tally.(erased := tally.erased + UnreadOf(s.db.sessions, sid))
          else UnreadOf(s'.db.sessions, sid) == UnreadOf(s.db.sessions, sid) && TallyOf(s'.tallies, sid) == tally)
  {
    assert SawOk(s.db.sessions, s.tasks[t]);
  }

  lemma AcceptTells(s: Chat, t: nat, session: int, agent: Int64, sid: int, counted: bool, wiped: bool, refused: bool)
    requires SessionsOk(s) && Tells(s, sid, counted, wiped, refused)
    ensures Tells(Step(s, Accept(t, session, agent)), sid, counted, wiped, refused)
  {
    var s' := Step(s, Accept(t, session, agent));
    if s' != s {
      assert RowOk(s.db.sessions[session]);
      assert Unreset(s', sid) == if session == sid then Unreset(s, sid) + {t} else Unreset(s, sid);
    }
  }

  // Every other step leaves the counter, what was lost and the accepts before their reset alone.
  lemma OtherSpares(s: Chat, a: Action, sid: int)
    requires !a.CountUnread? && !a.ResetUnread? && !a.Accept?
    ensures var s' := Step(s, a);
      && Unreset(s', sid) == Unreset(s, sid) && UnreadOf(s'.db.sessions, sid) == UnreadOf(s.db.sessions, sid)
      && TallyOf(s'.tallies, sid).erased == TallyOf(s.tallies, sid).erased
      && TallyOf(s'.tallies, sid).failed == TallyOf(s.tallies, sid).failed
      && (Agented(s.db.sessions, sid) ==> Agented(s'.db.sessions, sid))
  {
    assert forall t :: t in Unreset(Step(s, a), sid) <==> t in Unreset(s, sid);
  }

  lemma OtherTells(s: Chat, a: Action, sid: int, counted: bool, wiped: bool, refused: bool)
    requires Tells(s, sid, counted, wiped, refused)
    requires !a.CountUnread? && !a.ResetUnread? && !a.Accept?
    ensures Tells(Step(s, a), sid, counted, wiped, refused)
  {
    OtherSpares(s, a, sid);
  }

  lemma StepTells(s: Chat, a: Action, sid: int, counted: bool, wiped: bool, refused: bool)
    requires SessionsOk(s) && Tells(s, sid, counted, wiped, refused)
    ensures Tells(Step(s, a), sid, counted || Increments(s, a, sid, true), wiped || (counted && Resets(s, a, sid)),
                  refused || Increments(s, a, sid, false))
  {
    match a
    case CountUnread(t, ok) => CountTells(s, t, ok, sid, counted, wiped, refused);
    case ResetUnread(t, ok) => ResetTells(s, t, ok, sid, counted, wiped, refused);
    case Accept(t, session, agent) => AcceptTells(s, t, session, agent, sid, counted, wiped, refused);
    case _ => OtherTells(s, a, sid, counted, wiped, refused);
  }

  lemma {:induction false} RunTells(trace: seq<Action>, sid: int)
    ensures Tells(Run(INIT, trace), sid, Counted(trace, sid), Wiped(trace, sid), Refused(trace, sid))
  {
    if trace != [] {
      var front := trace[..|trace| - 1];
      RunTells(front, sid);
      ReachableOk(Run(INIT, front));
      StepTells(Run(INIT, front), trace[|trace| - 1], sid, Counted(front, sid), Wiped(front, sid), Refused(front, sid));
    }
  }

  /* ---- the same, by positions in the run ---- */

  predicate WinsAt(trace: seq<Action>, sid: int, i: nat)
    requires i < |trace|
  {
    Wins(Run(INIT, trace[..i]), trace[i], sid)
  }

  predicate IncrementsAt(trace: seq<Action>, sid: int, ok: bool, j: nat)
    requires j < |trace|
  {
    Increments(Run(INIT, trace[..j]), trace[j], sid, ok)
  }

  predicate ResetsAt(trace: seq<Action>, sid: int, k: nat)
    requires k < |trace|
  {
    Resets(Run(INIT, trace[..k]), trace[k], sid)
  }

  // The winning accept of the session, then an increment that takes effect, then the reset of
  // that same accept.
  predicate CaughtBetween(trace: seq<Action>, sid: int, i: nat, j: nat, k: nat) {
    && i < j < k < |trace|
    && WinsAt(trace, sid, i) && IncrementsAt(trace, sid, true, j) && ResetsAt(trace, sid, k)
    && trace[k].t == trace[i].t
  }

  lemma Prefix(trace: seq<Action>, n: nat, k: nat)
    requires k <= n <= |trace|
    ensures trace[..n][..k] == trace[..k] && (k < n ==> trace[..n][k] == trace[k])
  {
  }

  lemma NextCounted(trace: seq<Action>, sid: int, n: nat)
    requires n < |trace|
    ensures Counted(trace[..n + 1], sid) == (Counted(trace[..n], sid) || IncrementsAt(trace, sid, true, n))
  {
    Prefix(trace, n + 1, n);
  }

  lemma {:induction false} CountedIff(trace: seq<Action>, sid: int, n: nat)
    requires n <= |trace|
    ensures Counted(trace[..n], sid) <==> exists j :: 0 <= j < n && IncrementsAt(trace, sid, true, j)
  {
    if n > 0 {
      CountedIff(trace, sid, n - 1);
      NextCounted(trace, sid, n - 1);
    }
  }

  lemma NextRefused(trace: seq<Action>, sid: int, n: nat)
    requires n < |trace|
    ensures Refused(trace[..n + 1], sid) == (Refused(trace[..n], sid) || IncrementsAt(trace, sid, false, n))
  {
    Prefix(trace, n + 1, n);
  }

  lemma {:induction false} RefusedIff(trace: seq<Action>, sid: int, n: nat)
    requires n <= |trace|
    ensures Refused(trace[..n], sid) <==> exists j :: 0 <= j < n && IncrementsAt(trace, sid, false, j)
  {
    if n > 0 {
      RefusedIff(trace, sid, n - 1);
      NextRefused(trace, sid, n - 1);
    }
  }

  predicate ResetsAfterCount(trace: seq<Action>, sid: int, k: nat)
    requires k < |trace|
  {
    Counted(trace[..k], sid) && Resets(Run(INIT, trace[..k]), trace[k], sid)
  }

  lemma {:induction false} WipedIff(trace: seq<Action>, sid: int, n: nat)
    requires n <= |trace|
    ensures Wiped(trace[..n], sid) <==> exists k :: 0 <= k < n && ResetsAfterCount(trace, sid, k)
  {
    if n > 0 {
      WipedIff(trace, sid, n - 1);
      Prefix(trace, n, n - 1);
      assert Wiped(trace[..n], sid) == (Wiped(trace[..n - 1], sid) || ResetsAfterCount(trace, sid, n - 1));
    }
  }

  predicate AgentedBy(trace: seq<Action>, sid: int, n: nat)
    requires n <= |trace|
  {
    Agented(Run(INIT, trace[..n]).db.sessions, sid)
  }

  lemma AgentedNext(trace: seq<Action>, sid: int, n: nat)
    requires n < |trace|
    ensures AgentedBy(trace, sid, n + 1) <==> AgentedBy(trace, sid, n) || WinsAt(trace, sid, n)
  {
    Prefix(trace, n + 1, n);
    ReachableOk(Run(INIT, trace[..n]));
    StepAssigns(Run(INIT, trace[..n]), trace[n], sid);
  }

  lemma NoAgentAtFirst(trace: seq<Action>, sid: int)
    ensures !AgentedBy(trace, sid, 0)
  {
    assert trace[..0] == [];
  }

  // An agent goes back to a winning accept ...
  lemma {:induction false} WinBehindAgent(trace: seq<Action>, sid: int, n: nat)
    requires n <= |trace|
    ensures AgentedBy(trace, sid, n) <==> exists i :: 0 <= i < n && WinsAt(trace, sid, i)
  {
    if n == 0 {
      NoAgentAtFirst(trace, sid);
    } else {
      var m := n - 1;
      WinBehindAgent(trace, sid, m);
      AgentedNext(trace, sid, m);
      assert AgentedBy(trace, sid, n) <==> AgentedBy(trace, sid, m) || WinsAt(trace, sid, m);
    }
  }

  // ... and so does an accept that has not come to its reset.
  lemma {:induction false} WinBehindAccept(trace: seq<Action>, sid: int, n: nat, t: nat) returns (i: nat)
    requires n <= |trace| && t in Unreset(Run(INIT, trace[..n]), sid)
    ensures i < n && WinsAt(trace, sid, i) && trace[i].t == t
  {
    NothingAtFirst(trace, sid);
    if n > 0 {
      Prefix(trace, n, n - 1);
      var s, a := Run(INIT, trace[..n - 1]), trace[n - 1];
      if t in Unreset(s, sid) {
        i := WinBehindAccept(trace, sid, n - 1, t);
      } else {
        NewlyUnreset(s, a, sid, t);
        i := n - 1;
      }
    }
  }

  lemma NothingAtFirst(trace: seq<Action>, sid: int)
    ensures Unreset(Run(INIT, trace[..0]), sid) == {}
  {
    assert trace[..0] == [];
  }

  lemma NewlyUnreset(s: Chat, a: Action, sid: int, t: nat)
    requires t in Unreset(Step(s, a), sid) && t !in Unreset(s, sid)
    ensures Wins(s, a, sid) && a.t == t
  {
  }

  lemma WinsOnce(trace: seq<Action>, sid: int, i: nat, j: nat)
    requires i < j < |trace| && WinsAt(trace, sid, i)
    ensures !WinsAt(trace, sid, j)
  {
    WinBehindAgent(trace, sid, j);
    ReachableOk(Run(INIT, trace[..j]));
    if sid in Run(INIT, trace[..j]).db.sessions { assert RowOk(Run(INIT, trace[..j]).db.sessions[sid]); }
  }

  // Whoever reaches an increment saw an agent, and the accept that assigned it came before.
  lemma WinBeforeCount(trace: seq<Action>, sid: int, j: nat) returns (i: nat)
    requires j < |trace| && IncrementsAt(trace, sid, true, j)
    ensures i < j && WinsAt(trace, sid, i)
  {
    var s := Run(INIT, trace[..j]);
    ReachableOk(s);
    assert SawOk(s.db.sessions, s.tasks[trace[j].t]);
    WinBehindAgent(trace, sid, j);
    i :| 0 <= i < j && WinsAt(trace, sid, i);
  }

  lemma CaughtIff(trace: seq<Action>, sid: int)
    ensures (exists i, j, k :: CaughtBetween(trace, sid, i, j, k))
      <==> exists k :: 0 <= k < |trace| && ResetsAfterCount(trace, sid, k)
  {
    if i, j, k :| CaughtBetween(trace, sid, i, j, k) {
      CountedIff(trace, sid, k);
      assert ResetsAfterCount(trace, sid, k);
    }
    if k :| 0 <= k < |trace| && ResetsAfterCount(trace, sid, k) {
      CountedIff(trace, sid, k);
      var j :| 0 <= j < k && IncrementsAt(trace, sid, true, j);
      var i := WinBeforeCount(trace, sid, j);
      var i' := WinBehindAccept(trace, sid, k, trace[k].t);
      if i < i' { WinsOnce(trace, sid, i, i'); }
      if i' < i { WinsOnce(trace, sid, i', i); }
      assert CaughtBetween(trace, sid, i, j, k);
    }
  }

  // A count is erased exactly in the runs in which an increment of the session lands between its
  // one winning accept and that accept's reset.
  lemma ErasedIff(trace: seq<Action>, sid: int)
    ensures TallyOf(Run(INIT, trace).tallies, sid).erased > 0 <==> exists i, j, k :: CaughtBetween(trace, sid, i, j, k)
  {
    RunTells(trace, sid);
    WipedIff(trace, sid, |trace|);
    assert trace[..|trace|] == trace;
    CaughtIff(trace, sid);
  }

  // So the counter shows every counted message not still owed exactly in the runs in which no
  // increment was caught between accept and reset and none was refused.
  lemma UnreadIsExactIff(trace: seq<Action>, sid: int)
    ensures var s := Run(INIT, trace);
      UnreadOf(s.db.sessions, sid) == TallyOf(s.tallies, sid).counted - |Owing(s.tasks, sid)|
      <==> (forall i, j, k :: !CaughtBetween(trace, sid, i, j, k))
           && (forall j :: 0 <= j < |trace| ==> !IncrementsAt(trace, sid, false, j))
  {
    ErasedIff(trace, sid);
    RunTells(trace, sid);
    RefusedIff(trace, sid, |trace|);
    assert trace[..|trace|] == trace;
    UnreadIsConserved(Run(INIT, trace), sid);
    ReachableOk(Run(INIT, trace));
    assert Balanced(Run(INIT, trace), sid);
  }

  // Session 1 of visitor 7, just accepted by agent 9, whose reset is still to come.
  lemma AcceptedNotYetReset() returns (s: Chat)
    ensures Reachable(s)
    ensures s == Chat(Db(map[1 := Session("t", 7, 9, Active, 0, 0, "")], [], 1, 2), map[1 := Accepted(1, 9)], map[])
  {
    s := OneOpen();
    s := Then(s, Abort(0));
    assert s.tasks == map[];
    s := Then(s, Accept(1, 1, 9));
  }

  // The visitor writes again, and the handler has found the session assigned.
  lemma WritingBeforeReset() returns (s: Chat)
    ensures Reachable(s) && s.tallies == map[]
    ensures s.db == Db(map[1 := Session("t", 7, 9, Active, 0, 0, "")], [], 1, 2)
    ensures s.tasks == map[1 := Accepted(1, 9), 2 := HasSeq(Draft(1, FromVisitor, 7, "anyone?"), 9, 1)]
  {
    s := AcceptedNotYetReset();
    assert OpenOf(s.db.sessions, 7) == {1};
    s := Then(s, FindOpen(2, 7, "anyone?", 1));
    s := Then(s, ReadMax(2));
  }

  // That message is saved before the reset ...
  lemma SavedBeforeReset() returns (s: Chat)
    ensures Reachable(s) && s.db.sessions.Keys == {1} && s.db.sessions[1].unread == 0 && s.db.sessions[1].agent == 9
    ensures s.tasks == map[1 := Accepted(1, 9), 2 := Saved(Draft(1, FromVisitor, 7, "anyone?"), 9)]
    ensures TallyOf(s.tallies, 1) == Tally(1, 0, 0)
  {
    s := WritingBeforeReset();
    s := Then(s, TakeId(2));
    assert s.tasks == map[1 := Accepted(1, 9), 2 := HasId(Draft(1, FromVisitor, 7, "anyone?"), 9, 1, 1)];
    s := Then(s, Commit(2, 0, true));
  }

  // ... and counted.
  lemma CountedBeforeReset() returns (s: Chat)
    ensures Reachable(s) && s.db.sessions.Keys == {1} && s.db.sessions[1].unread == 1 && s.db.sessions[1].agent == 9
    ensures s.tasks == map[1 := Accepted(1, 9)] && TallyOf(s.tallies, 1) == Tally(1, 0, 0)
  {
    s := SavedBeforeReset();
    s := Then(s, CountUnread(2, true));
  }

  // The reset then wipes that count: one message counted, and the counter shows none.
  lemma ResetCanEraseACount() returns (s: Chat)
    ensures Reachable(s) && TallyOf(s.tallies, 1) == Tally(1, 1, 0)
    ensures UnreadOf(s.db.sessions, 1) == 0 && Agented(s.db.sessions, 1) && Owing(s.tasks, 1) == {}
  {
    s := CountedBeforeReset();
    s := Then(s, ResetUnread(1, true));
  }
}
