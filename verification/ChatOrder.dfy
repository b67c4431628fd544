/**
 The message log stays in order over every run: each session's sequence numbers are
 exactly 1..n, ids ascend with them, and the read rows are a prefix. The induction carries
 what every pending sender still holds, because its read and its insert are apart.
 */
module ChatOrder {
  import opened Tables
  import opened MessageLog
  import opened ChatServer

  ghost predicate LogOk(log: seq<Message>, next: int) {
    && (forall sid :: InOrder(RowsOf(log, sid)))
    && (forall m :: m in log ==> 0 < m.id < next)
    && 0 < next
    && (forall i, j :: 0 <= i < j < |log| ==> log[i].id != log[j].id)
  }

  // A reader holds at most n + 1, however late it commits.
  predicate SeqHeld(log: seq<Message>, sid: int, seqNum: nat) {
    1 <= seqNum <= |RowsOf(log, sid)| + 1
  }

  // An id already taken is nobody else's and above every committed row the reader counted.
  predicate IdHeld(log: seq<Message>, next: int, sid: int, seqNum: nat, id: int) {
    && 0 < id < next
    && (forall m :: m in log ==> m.id != id)
    && (forall m :: m in RowsOf(log, sid) && m.seqNum < seqNum ==> m.id < id)
  }

  predicate HeldOk(log: seq<Message>, next: int, task: Task) {
    match task
    case HasSeq(d, _, seqNum) => SeqHeld(log, d.session, seqNum)
    case HasId(d, _, seqNum, id) => SeqHeld(log, d.session, seqNum) && IdHeld(log, next, d.session, seqNum, id)
    case _ => true
  }

  predicate SameId(a: Task, b: Task) {
    a.HasId? && b.HasId? && a.id == b.id
  }

  ghost predicate PendingOk(log: seq<Message>, next: int, tasks: map<nat, Task>) {
    && (forall t :: t in tasks ==> HeldOk(log, next, tasks[t]))
    && (forall t, u :: t in tasks && u in tasks && SameId(tasks[t], tasks[u]) ==> t == u)
  }

  ghost predicate OrderOk(s: Chat) {
    LogOk(s.db.log, s.db.nextMessage) && PendingOk(s.db.log, s.db.nextMessage, s.tasks)
  }

  /* ---- one statement at a time ---- */

  lemma CommitKeepsRows(log: seq<Message>, row: Message, sid: int)
    requires InOrder(RowsOf(log, sid)) && !row.read && row.seqNum == |RowsOf(log, row.session)| + 1
    requires forall m :: m in RowsOf(log, row.session) ==> m.id < row.id
    ensures InOrder(RowsOf(log + [row], sid))
  {
    RowsOfAppend(log, row, sid);
    if sid == row.session {
      AppendKeepsOrder(RowsOf(log, sid), row);
    } else {
      assert RowsOf(log + [row], sid) == RowsOf(log, sid);
    }
  }

  // Committing a free number keeps the table in order: the number is n + 1 and the id on top.
  lemma CommitKeepsLog(log: seq<Message>, next: int, d: Draft, seqNum: nat, id: int, created: int)
    requires LogOk(log, next) && !Taken(log, d.session, seqNum)
    requires SeqHeld(log, d.session, seqNum) && IdHeld(log, next, d.session, seqNum, id)
    ensures LogOk(log + [Row(d, seqNum, id, created)], next)
    ensures seqNum == |RowsOf(log, d.session)| + 1
    ensures forall m :: m in RowsOf(log, d.session) ==> m.id < id
  {
    var row := Row(d, seqNum, id, created);
    FreeSeqIsNext(log, d.session, seqNum);
    assert InOrder(RowsOf(log, d.session));
    forall sid ensures InOrder(RowsOf(log + [row], sid)) {
      CommitKeepsRows(log, row, sid);
    }
  }

  // ... and what every other pending sender holds.
  lemma CommitKeepsHeld(log: seq<Message>, next: int, row: Message, task: Task)
    requires HeldOk(log, next, task)
    requires row.seqNum == |RowsOf(log, row.session)| + 1
    requires task.HasId? ==> task.id != row.id
    ensures HeldOk(log + [row], next, task)
  {
    if task.HasSeq? || task.HasId? {
      RowsOfAppend(log, row, task.draft.session);
    }
  }

  lemma MarkReadMembers(log: seq<Message>, sid: int, upTo: int)
    ensures forall m :: m in MarkRead(log, sid, upTo) ==> m in log || exists o :: o in log && m == o.(read := true)
  {
    forall m | m in MarkRead(log, sid, upTo)
      ensures m in log || exists o :: o in log && m == o.(read := true)
    {
      var i :| 0 <= i < |log| && MarkRead(log, sid, upTo)[i] == m;
      assert log[i] in log;
    }
  }

  lemma ReadKeepsRows(log: seq<Message>, sid: int, upTo: int, other: int)
    requires InOrder(RowsOf(log, other))
    ensures InOrder(RowsOf(MarkRead(log, sid, upTo), other))
  {
    RowsOfMarkRead(log, sid, upTo, other);
    RowsOfMembers(log, other);
    if other == sid {
      MarkReadMovesWatermark(RowsOf(log, sid), sid, upTo);
    } else {
      assert MarkRead(RowsOf(log, other), sid, upTo) == RowsOf(log, other);
    }
  }

  lemma ReadKeepsLog(log: seq<Message>, next: int, sid: int, upTo: int)
    requires LogOk(log, next)
    ensures LogOk(MarkRead(log, sid, upTo), next)
  {
    forall other ensures InOrder(RowsOf(MarkRead(log, sid, upTo), other)) {
      ReadKeepsRows(log, sid, upTo, other);
    }
    MarkReadMembers(log, sid, upTo);
  }

  lemma ReadKeepsHeld(log: seq<Message>, next: int, sid: int, upTo: int, task: Task)
    requires HeldOk(log, next, task)
    ensures HeldOk(MarkRead(log, sid, upTo), next, task)
  {
    if task.HasSeq? || task.HasId? {
      RowsOfMarkRead(log, sid, upTo, task.draft.session);
      MarkReadMembers(log, sid, upTo);
      MarkReadMembers(RowsOf(log, task.draft.session), sid, upTo);
    }
  }

  /* ---- every step of the machine ---- */

  lemma CommitKeepsOrder(s: Chat, t: nat, created: int, lastOk: bool)
    requires OrderOk(s) && t in s.tasks && s.tasks[t].HasId?
    ensures OrderOk(DoCommit(s, t, created, lastOk))
  {
    var HasId(d, saw, seqNum, id) := s.tasks[t];
    var log, next := s.db.log, s.db.nextMessage;
    if !Taken(log, d.session, seqNum) {
      assert HeldOk(log, next, s.tasks[t]);
      CommitKeepsLog(log, next, d, seqNum, id, created);
      forall u | u in s.tasks && u != t ensures HeldOk(log + [Row(d, seqNum, id, created)], next, s.tasks[u]) {
        assert SameId(s.tasks[t], s.tasks[u]) ==> t == u;
        CommitKeepsHeld(log, next, Row(d, seqNum, id, created), s.tasks[u]);
      }
    }
  }

  lemma TakeIdKeepsOrder(s: Chat, t: nat)
    requires OrderOk(s) && t in s.tasks && s.tasks[t].HasSeq?
    ensures OrderOk(DoTakeId(s, t))
  {
    var HasSeq(d, saw, seqNum) := s.tasks[t];
    assert HeldOk(s.db.log, s.db.nextMessage, s.tasks[t]);
    RowsOfMembers(s.db.log, d.session);
  }

  lemma ReadKeepsOrder(s: Chat, sid: int, upTo: int)
    requires OrderOk(s)
    ensures OrderOk(Step(s, Read(sid, upTo)))
  {
    ReadKeepsLog(s.db.log, s.db.nextMessage, sid, upTo);
    forall u | u in s.tasks ensures HeldOk(MarkRead(s.db.log, sid, upTo), s.db.nextMessage, s.tasks[u]) {
      ReadKeepsHeld(s.db.log, s.db.nextMessage, sid, upTo, s.tasks[u]);
    }
  }

  lemma ReadMaxKeepsOrder(s: Chat, t: nat)
    requires OrderOk(s) && t in s.tasks && s.tasks[t].Ready?
    ensures OrderOk(DoReadMax(s, t))
  {
    var rows := RowsOf(s.db.log, s.tasks[t].draft.session);
    assert InOrder(rows);
    MaxIsLength(rows);
  }

  // A step that leaves the message table alone, after which no task holds more than before.
  predicate LeavesLog(s: Chat, s': Chat) {
    && s'.db.log == s.db.log && s'.db.nextMessage == s.db.nextMessage
    && forall u :: u in s'.tasks && (s'.tasks[u].HasSeq? || s'.tasks[u].HasId?) ==> u in s.tasks && s'.tasks[u] == s.tasks[u]
  }

  lemma QuietKeepsOrder(s: Chat, s': Chat)
    requires OrderOk(s) && LeavesLog(s, s')
    ensures OrderOk(s')
  {
    forall t, u | t in s'.tasks && u in s'.tasks && SameId(s'.tasks[t], s'.tasks[u]) ensures t == u {
      assert SameId(s.tasks[t], s.tasks[u]);
    }
  }

  lemma OtherLeavesLog(s: Chat, a: Action)
    requires !a.ReadMax? && !a.TakeId? && !a.Commit? && !a.Read?
    ensures LeavesLog(s, Step(s, a))
  {
  }

  lemma StepKeepsOrder(s: Chat, a: Action)
    requires OrderOk(s)
    ensures OrderOk(Step(s, a))
  {
    if a.ReadMax? {
      if a.t in s.tasks && s.tasks[a.t].Ready? { ReadMaxKeepsOrder(s, a.t); }
    } else if a.TakeId? {
      if a.t in s.tasks && s.tasks[a.t].HasSeq? { TakeIdKeepsOrder(s, a.t); }
    } else if a.Commit? {
      if a.t in s.tasks && s.tasks[a.t].HasId? { CommitKeepsOrder(s, a.t, a.created, a.lastOk); }
    } else if a.Read? {
      ReadKeepsOrder(s, a.session, a.upTo);
    } else {
      OtherLeavesLog(s, a);
      QuietKeepsOrder(s, Step(s, a));
    }
  }

  lemma {:induction false} RunKeepsOrder(s: Chat, trace: seq<Action>)
    requires OrderOk(s)
    ensures OrderOk(Run(s, trace))
  {
    if trace != [] {
      RunKeepsOrder(s, trace[..|trace| - 1]);
      StepKeepsOrder(Run(s, trace[..|trace| - 1]), trace[|trace| - 1]);
    }
  }
}
