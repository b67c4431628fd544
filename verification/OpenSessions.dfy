/**
 How many sessions a visitor has open. CreateOrGetSession means at most one, but nothing in the
 database says so: the insert of a second one commits whenever its lookup ended in an error, or
 when another handler of the visitor inserted since that lookup found none.
 */
module OpenSessions {
  import opened Tables
  import opened UserKeys
  import opened ChatServer
  import opened ChatSessions
  import opened ChatTheorems

  // A new session of the visitor commits.
  predicate Inserts(s: Chat, a: Action, visitor: Int64) {
    && a.Insert? && a.t in s.tasks && s.tasks[a.t].Inserting?
    && s.tasks[a.t].visitor == visitor && s.tasks[a.t].session !in s.db.sessions
  }

  // ... while another is open.
  predicate Doubles(s: Chat, a: Action, visitor: Int64) {
    && Inserts(s, a, visitor)
    && exists sid :: sid in s.db.sessions && s.db.sessions[sid].visitor == visitor && s.db.sessions[sid].status != Closed
  }

  lemma OpenAfterStep(s: Chat, a: Action, visitor: Int64)
    ensures var now, later := OpenOf(s.db.sessions, visitor), OpenOf(Step(s, a).db.sessions, visitor);
      if Inserts(s, a, visitor) then s.tasks[a.t].session !in now && later == now + {s.tasks[a.t].session} else later <= now
  {
    var now, later := OpenOf(s.db.sessions, visitor), OpenOf(Step(s, a).db.sessions, visitor);
    if a.Insert? && Step(s, a).db.sessions != s.db.sessions {
      var task := s.tasks[a.t];
      assert later == if task.visitor == visitor then now + {task.session} else now;
    } else {
      NoneOpens(s, a, visitor);
    }
  }

  lemma NoneOpens(s: Chat, a: Action, visitor: Int64)
    requires !a.Insert? || Step(s, a).db.sessions == s.db.sessions
    ensures OpenOf(Step(s, a).db.sessions, visitor) <= OpenOf(s.db.sessions, visitor)
  {
  }

  lemma SomeOpenIff(sessions: map<int, Session>, visitor: Int64)
    ensures OpenOf(sessions, visitor) != {} <==>
      exists sid :: sid in sessions && sessions[sid].visitor == visitor && sessions[sid].status != Closed
  {
    assert (forall sid :: sid !in OpenOf(sessions, visitor)) ==> OpenOf(sessions, visitor) == {};
    if sid :| sid in sessions && sessions[sid].visitor == visitor && sessions[sid].status != Closed {
      assert sid in OpenOf(sessions, visitor);
    }
  }

  lemma Fewer(a: set<int>, b: set<int>)
    requires a <= b
    ensures |a| <= |b|
  {
    assert b == a + (b - a);
  }

  lemma OnlyOne(open: set<int>, sid: int)
    requires |open| <= 1 && sid in open
    ensures open == {sid}
  {
    forall other | other in open ensures other == sid {
      Fewer({sid, other}, open);
    }
  }

  lemma OneIsOnly(sessions: map<int, Session>, visitor: Int64, sid: int)
    requires |set id | id in sessions && sessions[id].visitor == visitor && sessions[id].status != Closed| <= 1
    requires sid in sessions && sessions[sid].visitor == visitor && sessions[sid].status != Closed
    ensures forall other ::
      other in sessions && sessions[other].visitor == visitor && sessions[other].status != Closed ==> other == sid
  {
    OnlyOne(OpenOf(sessions, visitor), sid);
    forall other | other in sessions && sessions[other].visitor == visitor && sessions[other].status != Closed
      ensures other == sid
    {
      assert other in OpenOf(sessions, visitor);
    }
  }

  // A further open session beside another appears in a step exactly when it is such an insert.
  lemma SecondOpensExactlyWhenInserted(s: Chat, a: Action, visitor: Int64)
    ensures var before, after := s.db.sessions, Step(s, a).db.sessions;
      var now := |set sid | sid in before && before[sid].visitor == visitor && before[sid].status != Closed|;
      var later := |set sid | sid in after && after[sid].visitor == visitor && after[sid].status != Closed|;
      now < later && 1 < later <==> Doubles(s, a, visitor)
  {
    SomeOpenIff(s.db.sessions, visitor);
    var now, later := OpenOf(s.db.sessions, visitor), OpenOf(Step(s, a).db.sessions, visitor);
    OpenAfterStep(s, a, visitor);
    if Inserts(s, a, visitor) {
      assert |later| == |now| + 1;
    } else {
      Fewer(later, now);
    }
  }

  function OpenCount(trace: seq<Action>, visitor: Int64, k: nat): nat
    requires k <= |trace|
  {
    var sessions := Run(INIT, trace[..k]).db.sessions;
    |set sid | sid in sessions && sessions[sid].visitor == visitor && sessions[sid].status != Closed|
  }

  predicate DoublesAt(trace: seq<Action>, visitor: Int64, k: nat)
    requires k < |trace|
  {
    Doubles(Run(INIT, trace[..k]), trace[k], visitor)
  }

  lemma NextCount(trace: seq<Action>, visitor: Int64, k: nat)
    requires k < |trace|
    ensures OpenCount(trace, visitor, k) < OpenCount(trace, visitor, k + 1) && 1 < OpenCount(trace, visitor, k + 1)
      <==> DoublesAt(trace, visitor, k)
  {
    assert trace[..k + 1][..k] == trace[..k];
    SecondOpensExactlyWhenInserted(Run(INIT, trace[..k]), trace[k], visitor);
  }

  lemma {:induction false} OneOpenUnlessDoubled(trace: seq<Action>, visitor: Int64, k: nat)
    requires k <= |trace| && forall i :: 0 <= i < k ==> !DoublesAt(trace, visitor, i)
    ensures OpenCount(trace, visitor, k) <= 1
  {
    if k == 0 {
      assert trace[..0] == [];
    } else {
      OneOpenUnlessDoubled(trace, visitor, k - 1);
      NextCount(trace, visitor, k - 1);
    }
  }

  // Over any run the visitor never has two sessions open exactly when none of theirs was inserted
  // while one was open.
  lemma OneOpenIff(trace: seq<Action>, visitor: Int64)
    ensures (forall k :: 0 <= k <= |trace| ==> OpenCount(trace, visitor, k) <= 1)
      <==> (forall k :: 0 <= k < |trace| ==> !DoublesAt(trace, visitor, k))
  {
    forall k | 0 <= k < |trace| && DoublesAt(trace, visitor, k) ensures OpenCount(trace, visitor, k + 1) > 1 {
      NextCount(trace, visitor, k);
    }
    if forall k :: 0 <= k < |trace| ==> !DoublesAt(trace, visitor, k) {
      forall k | 0 <= k <= |trace| ensures OpenCount(trace, visitor, k) <= 1 {
        OneOpenUnlessDoubled(trace, visitor, k);
      }
    }
  }

  // Then whichever of the visitor's open sessions a newest-first lookup returns, it is the only one.
  lemma OnlyOpenSession(trace: seq<Action>, visitor: Int64, sid: int)
    requires forall k :: 0 <= k < |trace| ==> !DoublesAt(trace, visitor, k)
    requires var sessions := Run(INIT, trace).db.sessions;
      sid in sessions && sessions[sid].visitor == visitor && sessions[sid].status != Closed
    ensures var sessions := Run(INIT, trace).db.sessions; forall other ::
      other in sessions && sessions[other].visitor == visitor && sessions[other].status != Closed ==> other == sid
  {
    OneOpenUnlessDoubled(trace, visitor, |trace|);
    assert trace[..|trace|] == trace;
    OneIsOnly(Run(INIT, trace).db.sessions, visitor, sid);
  }

  /* ---- why one is inserted while another is open ---- */

  // Handler t found none open, or its lookup failed.
  predicate Looks(s: Chat, a: Action, t: nat, visitor: Int64) {
    && t !in s.tasks && visitor > 0
    && ((a.FindNone? && a.t == t && a.visitor == visitor && OpenOf(s.db.sessions, visitor) == {})
        || (a.FindFails? && a.t == t && a.visitor == visitor))
  }

  predicate LooksAt(trace: seq<Action>, t: nat, visitor: Int64, i: nat)
    requires i < |trace|
  {
    Looks(Run(INIT, trace[..i]), trace[i], t, visitor)
  }

  predicate InsertsAt(trace: seq<Action>, visitor: Int64, j: nat)
    requires j < |trace|
  {
    Inserts(Run(INIT, trace[..j]), trace[j], visitor)
  }

  // Handler t is between its lookup and its insert.
  predicate Creating(s: Chat, t: nat, visitor: Int64) {
    t in s.tasks && (s.tasks[t].Entering? || s.tasks[t].Inserting?) && s.tasks[t].visitor == visitor
  }

  // It has been since its lookup at i.
  predicate CreatingSince(trace: seq<Action>, t: nat, visitor: Int64, i: nat, n: nat)
    requires n <= |trace|
  {
    i < n && LooksAt(trace, t, visitor, i) && forall m :: i < m <= n ==> Creating(Run(INIT, trace[..m]), t, visitor)
  }

  // Since then nothing of the visitor's was inserted, or the lookup had failed anyway.
  predicate StillNone(trace: seq<Action>, visitor: Int64, i: nat, n: nat)
    requires i < n <= |trace|
  {
    || trace[i].FindFails?
    || OpenOf(Run(INIT, trace[..n]).db.sessions, visitor) == {}
    || exists j :: i < j < n && InsertsAt(trace, visitor, j)
  }

  lemma BeginsCreating(s: Chat, a: Action, t: nat, visitor: Int64)
    requires Creating(Step(s, a), t, visitor) && !Creating(s, t, visitor)
    ensures Looks(s, a, t, visitor) && Step(s, a).db == s.db
  {
  }

  lemma {:induction false} LookBehind(trace: seq<Action>, t: nat, visitor: Int64, n: nat) returns (i: nat)
    requires n <= |trace| && Creating(Run(INIT, trace[..n]), t, visitor)
    ensures CreatingSince(trace, t, visitor, i, n) && StillNone(trace, visitor, i, n)
  {
    NobodyAtFirst(trace, t, visitor);
    if n > 0 {
      var s := Run(INIT, trace[..n - 1]);
      assert trace[..n][..n - 1] == trace[..n - 1];
      OpenAfterStep(s, trace[n - 1], visitor);
      if Creating(s, t, visitor) {
        i := LookBehind(trace, t, visitor, n - 1);
        LookStays(trace, visitor, i, n);
      } else {
        BeginsCreating(s, trace[n - 1], t, visitor);
        i := n - 1;
      }
    }
  }

  lemma NobodyAtFirst(trace: seq<Action>, t: nat, visitor: Int64)
    ensures !Creating(Run(INIT, trace[..0]), t, visitor)
  {
    assert trace[..0] == [];
  }

  lemma LookStays(trace: seq<Action>, visitor: Int64, i: nat, n: nat)
    requires i < n - 1 < |trace| && StillNone(trace, visitor, i, n - 1)
    ensures StillNone(trace, visitor, i, n)
  {
    assert trace[..n][..n - 1] == trace[..n - 1];
    OpenAfterStep(Run(INIT, trace[..n - 1]), trace[n - 1], visitor);
    if InsertsAt(trace, visitor, n - 1) { assert i < n - 1 < n; }
  }

  // Every insert beside an open session has one of two causes: the handler's lookup failed, or
  // another session of the visitor was inserted between its lookup and its insert. A transaction
  // that kept the two together would leave only the first.
  lemma DoublingHasCause(trace: seq<Action>, visitor: Int64, k: nat) returns (i: nat)
    requires k < |trace| && DoublesAt(trace, visitor, k)
    ensures CreatingSince(trace, trace[k].t, visitor, i, k)
    ensures trace[i].FindFails? || exists j :: i < j < k && InsertsAt(trace, visitor, j)
  {
    i := LookBehind(trace, trace[k].t, visitor, k);
    SomeOpenIff(Run(INIT, trace[..k]).db.sessions, visitor);
  }

  // Session 1 of visitor 7 is open.
  lemma OneOpen() returns (s: Chat)
    ensures Reachable(s)
    ensures s == Chat(Db(map[1 := NewSession("t", 7)], [], 1, 2), map[0 := Ready(Draft(1, FromVisitor, 7, "hello"), 0)], map[])
  {
    assert Run(INIT, []) == INIT;
    s := Then(INIT, FindNone(0, 7, "t", "hello"));
    s := Then(s, TakeSession(0));
    s := Then(s, Insert(0));
  }

  // The visitor writes again and the lookup fails.
  lemma TwoOpenSessions() returns (s: Chat)
    ensures Reachable(s) && OpenOf(s.db.sessions, 7) == {1, 2}
    ensures s.db.sessions == map[1 := Session("t", 7, 0, Pending, 0, 0, ""), 2 := Session("t", 7, 0, Pending, 0, 0, "")]
  {
    s := OneOpen();
    s := Then(s, FindFails(1, 7, "t", "hello?"));
    s := Then(s, TakeSession(1));
    s := Then(s, Insert(1));
  }

  // Two first messages at once: both lookups work, both find none.
  lemma TwoOpenByRace() returns (s: Chat)
    ensures Reachable(s) && OpenOf(s.db.sessions, 7) == {1, 2}
    ensures s.db.sessions == map[1 := Session("t", 7, 0, Pending, 0, 0, ""), 2 := Session("t", 7, 0, Pending, 0, 0, "")]
  {
    s := BothInserting();
    s := Then(s, Insert(0));
    s := Then(s, Insert(1));
  }

  lemma BothInserting() returns (s: Chat)
    ensures Reachable(s) && s.db.sessions == map[]
    ensures s.tasks == map[0 := Inserting("t", 7, "hello", 1), 1 := Inserting("t", 7, "anyone?", 2)]
  {
    s := BothFoundNone();
    s := Then(s, TakeSession(0));
    s := Then(s, TakeSession(1));
  }

  lemma BothFoundNone() returns (s: Chat)
    ensures Reachable(s) && s.db == INIT.db
    ensures s.tasks == map[0 := Entering("t", 7, "hello"), 1 := Entering("t", 7, "anyone?")]
  {
    assert Run(INIT, []) == INIT;
    s := Then(INIT, FindNone(0, 7, "t", "hello"));
    s := Then(s, FindNone(1, 7, "t", "anyone?"));
  }
}
