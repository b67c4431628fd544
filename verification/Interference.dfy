/**
 One handler among many: between two of its own statements every other handler, here and on
 other nodes, takes any number of steps of the chat machine.
 */
module Interference {
  import opened Tables
  import opened MessageLog
  import opened ChatServer
  import opened ChatOrder
  import opened ChatSessions
  import opened ChatIds
  import opened ChatTheorems

  ghost predicate DbOk(db: Db) {
    LogOk(db.log, db.nextMessage) && TableOk(db.sessions)
  }

  predicate DbMoved(a: Db, b: Db) {
    TableMoved(a.sessions, b.sessions) && Grew(a.log, b.log) && a.nextMessage <= b.nextMessage && a.nextSession <= b.nextSession
  }

  // A step taken by some handler other than t, or one that belongs to no task.
  predicate Elsewhere(a: Action, t: nat) {
    a.Close? || a.Read? || a.t != t
  }

  // The steps of handler t, in order.
  function Own(trace: seq<Action>, t: nat): seq<Action> {
    if trace == [] then []
    else
      var last := trace[|trace| - 1];
      Own(trace[..|trace| - 1], t) + (if Elsewhere(last, t) then [] else [last])
  }

  // Handler t takes its `own` steps from s to s', with any steps of others before, between and after.
  ghost predicate Interleaved(s: Chat, s': Chat, t: nat, own: seq<Action>) {
    exists trace :: s' == Run(s, trace) && Own(trace, t) == own
  }

  lemma {:induction false} OwnAppend(a: seq<Action>, b: seq<Action>, t: nat)
    ensures Own(a + b, t) == Own(a, t) + Own(b, t)
  {
    if b == [] {
      assert a + b == a;
    } else {
      var front := b[..|b| - 1];
      OwnAppend(a, front, t);
      assert (a + b)[..|a + b| - 1] == a + front;
    }
  }

  lemma StandsStill(s: Chat, t: nat)
    ensures Interleaved(s, s, t, [])
  {
    assert s == Run(s, []) && Own([], t) == [];
  }

  lemma TakesStep(s: Chat, a: Action, t: nat)
    ensures Interleaved(s, Step(s, a), t, if Elsewhere(a, t) then [] else [a])
  {
    assert [a][..0] == [];
    assert Own([a], t) == if Elsewhere(a, t) then [] else [a];
    assert Run(s, [a]) == Step(s, a);
  }

  lemma Chained(a: Chat, b: Chat, c: Chat, t: nat, first: seq<Action>, next: seq<Action>)
    requires Interleaved(a, b, t, first) && Interleaved(b, c, t, next)
    ensures Interleaved(a, c, t, first + next)
  {
    var x :| b == Run(a, x) && Own(x, t) == first;
    var y :| c == Run(b, y) && Own(y, t) == next;
    RunsCompose(a, x, y);
    OwnAppend(x, y, t);
    assert c == Run(a, x + y) && Own(x + y, t) == first + next;
  }

  lemma {:induction false} CounterRises(s: Chat, trace: seq<Action>)
    ensures s.db.nextMessage <= Run(s, trace).db.nextMessage
  {
    if trace != [] { CounterRises(s, trace[..|trace| - 1]); }
  }

  // However handlers interleave, both tables stay in order and only move forward.
  lemma TablesMove(s: Chat, s': Chat, t: nat, own: seq<Action>)
    requires Reachable(s) && Interleaved(s, s', t, own)
    ensures Reachable(s') && DbOk(s.db) && DbOk(s'.db) && DbMoved(s.db, s'.db)
  {
    var trace :| s' == Run(s, trace) && Own(trace, t) == own;
    StaysReachable(s, trace);
    ReachableOk(s);
    ReachableOk(s');
    RunKeepsSessions(s, trace);
    RunGrows(s, trace);
    CounterRises(s, trace);
    ReachableIds(s);
    RunKeepsIds(s, trace);
  }

  lemma StepSparesTask(s: Chat, a: Action, t: nat)
    requires Elsewhere(a, t)
    ensures t in Step(s, a).tasks <==> t in s.tasks
    ensures t in s.tasks ==> Step(s, a).tasks[t] == s.tasks[t]
  {
  }

  lemma {:induction false} RunSparesTask(s: Chat, trace: seq<Action>, t: nat)
    requires Own(trace, t) == []
    ensures t in Run(s, trace).tasks <==> t in s.tasks
    ensures t in s.tasks ==> Run(s, trace).tasks[t] == s.tasks[t]
  {
    if trace != [] {
      assert Elsewhere(trace[|trace| - 1], t);
      RunSparesTask(s, trace[..|trace| - 1], t);
      StepSparesTask(Run(s, trace[..|trace| - 1]), trace[|trace| - 1], t);
    }
  }

  // ... and nobody touches what handler t is in the middle of.
  lemma OthersSpareTask(s: Chat, s': Chat, t: nat)
    requires Interleaved(s, s', t, [])
    ensures t in s'.tasks <==> t in s.tasks
    ensures t in s.tasks ==> s'.tasks[t] == s.tasks[t]
  {
    var trace :| s' == Run(s, trace) && Own(trace, t) == [];
    RunSparesTask(s, trace, t);
  }
}
