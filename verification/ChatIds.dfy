/**
 The ids of sessions: the table's counter hands each out once, so a row that is still to be
 committed never meets another under its id.
 */
module ChatIds {
  import opened Tables
  import opened ChatServer

  predicate SameSession(a: Task, b: Task) {
    a.Inserting? && b.Inserting? && a.session == b.session
  }

  // The id was handed out and no row carries it yet.
  predicate Unborn(db: Db, sid: int) {
    0 < sid < db.nextSession && sid !in db.sessions
  }

  predicate IdsOk(s: Chat) {
    && 0 < s.db.nextSession
    && (forall sid :: sid in s.db.sessions ==> 0 < sid < s.db.nextSession)
    && (forall t :: t in s.tasks && s.tasks[t].Inserting? ==> Unborn(s.db, s.tasks[t].session))
    && (forall t, u :: t in s.tasks && u in s.tasks && SameSession(s.tasks[t], s.tasks[u]) ==> t == u)
  }

  lemma InsertKeepsIds(s: Chat, t: nat)
    requires IdsOk(s) && t in s.tasks && s.tasks[t].Inserting?
    ensures IdsOk(DoInsert(s, t))
  {
    var sid := s.tasks[t].session;
    forall u | u in s.tasks && u != t && s.tasks[u].Inserting? ensures s.tasks[u].session != sid {
      assert SameSession(s.tasks[t], s.tasks[u]) ==> t == u;
    }
  }

  // Any other step leaves the rows' ids alone, hands out none, and no task comes to hold one.
  lemma QuietKeepsIds(s: Chat, s': Chat)
    requires IdsOk(s) && s'.db.sessions.Keys == s.db.sessions.Keys && s'.db.nextSession == s.db.nextSession
    requires forall u :: u in s'.tasks && s'.tasks[u].Inserting? ==> u in s.tasks && s.tasks[u] == s'.tasks[u]
    ensures IdsOk(s')
  {
    forall t, u | t in s'.tasks && u in s'.tasks && SameSession(s'.tasks[t], s'.tasks[u]) ensures t == u {
      assert SameSession(s.tasks[t], s.tasks[u]);
    }
  }

  lemma OtherIsQuiet(s: Chat, a: Action)
    requires !a.Insert? && !a.TakeSession?
    ensures var s' := Step(s, a);
      && s'.db.sessions.Keys == s.db.sessions.Keys && s'.db.nextSession == s.db.nextSession
      && forall u :: u in s'.tasks && s'.tasks[u].Inserting? ==> u in s.tasks && s.tasks[u] == s'.tasks[u]
  {
  }

  lemma StepKeepsIds(s: Chat, a: Action)
    requires IdsOk(s)
    ensures IdsOk(Step(s, a)) && s.db.nextSession <= Step(s, a).db.nextSession
  {
    if a.Insert? {
      if a.t in s.tasks && s.tasks[a.t].Inserting? { InsertKeepsIds(s, a.t); }
    } else if !a.TakeSession? {
      OtherIsQuiet(s, a);
      QuietKeepsIds(s, Step(s, a));
    }
  }

  lemma {:induction false} RunKeepsIds(s: Chat, trace: seq<Action>)
    requires IdsOk(s)
    ensures IdsOk(Run(s, trace)) && s.db.nextSession <= Run(s, trace).db.nextSession
  {
    if trace != [] {
      RunKeepsIds(s, trace[..|trace| - 1]);
      StepKeepsIds(Run(s, trace[..|trace| - 1]), trace[|trace| - 1]);
    }
  }
}
