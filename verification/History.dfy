/**
 The queries that replay a conversation: the unread messages pushed after a reconnect, and
 the history pages a client walks backwards through.
 */
module History {
  import opened Tables
  import opened UserKeys
  import opened MessageLog
  import opened ChatServer
  import opened ChatOrder
  import opened ChatSessions
  import opened ChatTheorems
  import OpenSessions

  /* ---- unread messages ---- */

  // JOIN sessions ON ..., keeping unread messages of the given sessions, in commit order.
  function UnreadIn(log: seq<Message>, sids: set<int>): seq<Message> {
    if log == [] then []
    else
      var last := log[|log| - 1];
      UnreadIn(log[..|log| - 1], sids) + (if last.session in sids && !last.read then [last] else [])
  }

  // WHERE agent_id = agent AND status != 'closed'
  function OpenWith(sessions: map<int, Session>, agent: Int64): set<int> {
    set sid | sid in sessions && sessions[sid].agent == agent && sessions[sid].status != Closed
  }

  // The unread tail of one session.
  function Tail(log: seq<Message>, sid: int): seq<Message> {
    var rows := RowsOf(log, sid);
    rows[ReadCount(rows)..]
  }

  lemma UnreadNext(log: seq<Message>, m: Message, sids: set<int>)
    ensures UnreadIn(log + [m], sids) == if m.session in sids && !m.read then UnreadIn(log, sids) + [m] else UnreadIn(log, sids)
  {
    assert (log + [m])[..|log|] == log;
    assert UnreadIn(log, sids) + [] == UnreadIn(log, sids);
  }

  predicate RowsAgree(log: seq<Message>, sids: set<int>, sid: int) {
    RowsOf(UnreadIn(log, sids), sid) == if sid in sids then UnreadIn(RowsOf(log, sid), {sid}) else []
  }

  lemma RowsAgreeNext(log: seq<Message>, m: Message, sids: set<int>, sid: int)
    requires RowsAgree(log, sids, sid)
    ensures RowsAgree(log + [m], sids, sid)
  {
    UnreadNext(log, m, sids);
    RowsOfNext(log, m, sid);
    if m.session in sids && !m.read { RowsOfNext(UnreadIn(log, sids), m, sid); }
    if m.session == sid { UnreadNext(RowsOf(log, sid), m, {sid}); }
  }

  lemma {:induction false} UnreadRows(log: seq<Message>, sids: set<int>, sid: int)
    ensures RowsAgree(log, sids, sid)
  {
    if log != [] {
      UnreadRows(log[..|log| - 1], sids, sid);
      RowsAgreeNext(log[..|log| - 1], log[|log| - 1], sids, sid);
      assert log[..|log| - 1] + [log[|log| - 1]] == log;
    }
  }

  predicate OneAgrees(log: seq<Message>, sid: int) {
    UnreadIn(log, {sid}) == UnreadIn(RowsOf(log, sid), {sid})
  }

  lemma OneAgreesNext(log: seq<Message>, m: Message, sid: int)
    requires OneAgrees(log, sid)
    ensures OneAgrees(log + [m], sid)
  {
    UnreadNext(log, m, {sid});
    RowsOfNext(log, m, sid);
    if m.session == sid { UnreadNext(RowsOf(log, sid), m, {sid}); }
  }

  lemma {:induction false} UnreadOfOne(log: seq<Message>, sid: int)
    ensures OneAgrees(log, sid)
  {
    if log != [] {
      UnreadOfOne(log[..|log| - 1], sid);
      OneAgreesNext(log[..|log| - 1], log[|log| - 1], sid);
      assert log[..|log| - 1] + [log[|log| - 1]] == log;
    }
  }

  lemma {:induction false} UnreadIsTail(rows: seq<Message>, sid: int, w: nat)
    requires ReadUpTo(rows, w) && forall k :: 0 <= k < |rows| ==> rows[k].session == sid
    ensures UnreadIn(rows, {sid}) == rows[w..]
  {
    if w == |rows| {
      if rows != [] { UnreadIsTail(rows[..|rows| - 1], sid, w - 1); }
    } else {
      UnreadIsTail(rows[..|rows| - 1], sid, w);
      assert rows[w..] == rows[..|rows| - 1][w..] + [rows[|rows| - 1]];
    }
  }

  lemma {:induction false} UnreadOfNone(log: seq<Message>)
    ensures UnreadIn(log, {}) == []
  {
    if log != [] { UnreadOfNone(log[..|log| - 1]); }
  }

  // Of each session in the join, the result holds exactly the unread tail; of others nothing.
  lemma JoinIsTails(s: Chat, sids: set<int>, sid: int)
    requires Reachable(s)
    ensures RowsOf(UnreadIn(s.db.log, sids), sid) == if sid in sids then Tail(s.db.log, sid) else []
  {
    RowsInOrder(s, sid);
    UnreadRows(s.db.log, sids, sid);
    RowsOfMembers(s.db.log, sid);
    UnreadIsTail(RowsOf(s.db.log, sid), sid, ReadCount(RowsOf(s.db.log, sid)));
  }

  /* ---- ordered by the clocks of the nodes ---- */

  predicate ByTime(rows: seq<Message>) {
    forall i, j :: 0 <= i < j < |rows| ==> rows[i].created <= rows[j].created
  }

  // ORDER BY created_at ASC: rows with equal times come in any order.
  predicate Answers(got: seq<Message>, log: seq<Message>, sids: set<int>) {
    multiset(got) == multiset(UnreadIn(log, sids)) && ByTime(got)
  }

  function InsertByTime(m: Message, sorted: seq<Message>): seq<Message> {
    if sorted == [] || m.created <= sorted[0].created then [m] + sorted else [sorted[0]] + InsertByTime(m, sorted[1..])
  }

  function SortByTime(rows: seq<Message>): seq<Message> {
    if rows == [] then [] else InsertByTime(rows[0], SortByTime(rows[1..]))
  }

  // The new row goes before every row that is not older.
  lemma {:induction false} InsertSplits(m: Message, sorted: seq<Message>) returns (p: nat)
    requires ByTime(sorted)
    ensures p <= |sorted| && InsertByTime(m, sorted) == sorted[..p] + [m] + sorted[p..]
    ensures forall i :: 0 <= i < |sorted| ==> (i < p <==> sorted[i].created < m.created)
  {
    if sorted == [] || m.created <= sorted[0].created {
      p := 0;
    } else {
      var q := InsertSplits(m, sorted[1..]);
      p := q + 1;
      assert sorted[..p] == [sorted[0]] + sorted[1..][..q] && sorted[p..] == sorted[1..][q..];
      forall i | 0 <= i < |sorted| ensures i < p <==> sorted[i].created < m.created {
        if i > 0 { assert sorted[i] == sorted[1..][i - 1]; }
      }
    }
  }

  lemma InsertKeepsTime(m: Message, sorted: seq<Message>)
    requires ByTime(sorted)
    ensures ByTime(InsertByTime(m, sorted)) && multiset(InsertByTime(m, sorted)) == multiset(sorted) + multiset{m}
  {
    var p := InsertSplits(m, sorted);
    var all := InsertByTime(m, sorted);
    forall i, j | 0 <= i < j < |all| ensures all[i].created <= all[j].created {
      assert all[i] == if i < p then sorted[i] else if i == p then m else sorted[i - 1];
      assert all[j] == if j < p then sorted[j] else if j == p then m else sorted[j - 1];
    }
    PutIn(sorted, p, m);
  }

  lemma PutIn(rows: seq<Message>, p: nat, m: Message)
    requires p <= |rows|
    ensures multiset(rows[..p] + [m] + rows[p..]) == multiset(rows) + multiset{m}
  {
    assert rows == rows[..p] + rows[p..];
  }

  lemma {:induction false} SortAnswers(rows: seq<Message>)
    ensures ByTime(SortByTime(rows)) && multiset(SortByTime(rows)) == multiset(rows)
  {
    if rows != [] {
      SortAnswers(rows[1..]);
      InsertKeepsTime(rows[0], SortByTime(rows[1..]));
      assert rows == [rows[0]] + rows[1..];
    }
  }

  lemma {:induction false} RowsOfConcat(a: seq<Message>, b: seq<Message>, sid: int)
    ensures RowsOf(a + b, sid) == RowsOf(a, sid) + RowsOf(b, sid)
  {
    if b == [] {
      assert a + b == a;
    } else {
      var front, last := b[..|b| - 1], b[|b| - 1];
      RowsOfConcat(a, front, sid);
      RowsOfAppend(a + front, last, sid);
      assert a + b == a + front + [last];
    }
  }

  lemma {:induction false} RowsOfCounts(rows: seq<Message>, sid: int, m: Message)
    ensures multiset(RowsOf(rows, sid))[m] == if m.session == sid then multiset(rows)[m] else 0
  {
    if rows != [] {
      RowsOfCounts(rows[..|rows| - 1], sid, m);
      assert rows == rows[..|rows| - 1] + [rows[|rows| - 1]];
    }
  }

  lemma {:induction false} RowsOfByTime(rows: seq<Message>, sid: int)
    requires ByTime(rows)
    ensures ByTime(RowsOf(rows, sid))
  {
    if rows != [] {
      var front := rows[..|rows| - 1];
      RowsOfByTime(front, sid);
      RowsOfMembers(front, sid);
    }
  }

  // Of each session the answer holds exactly the unread tail, each message once, by time.
  lemma AnswerHoldsTails(s: Chat, sids: set<int>, got: seq<Message>, sid: int)
    requires Reachable(s) && Answers(got, s.db.log, sids)
    ensures multiset(RowsOf(got, sid)) == multiset(if sid in sids then Tail(s.db.log, sid) else []) && ByTime(RowsOf(got, sid))
  {
    JoinIsTails(s, sids, sid);
    RowsOfByTime(got, sid);
    var unread := UnreadIn(s.db.log, sids);
    forall m ensures multiset(RowsOf(got, sid))[m] == multiset(RowsOf(unread, sid))[m] {
      RowsOfCounts(got, sid, m);
      RowsOfCounts(unread, sid, m);
    }
  }

  // Each message once, none before an older one.
  predicate OnceByTime(rows: seq<Message>) {
    forall i, j :: 0 <= i < j < |rows| ==> rows[i].id != rows[j].id && rows[i].created <= rows[j].created
  }

  lemma {:induction false} UnreadMembers(log: seq<Message>, sids: set<int>)
    ensures forall m :: m in UnreadIn(log, sids) <==> m in log && !m.read && m.session in sids
  {
    if log != [] {
      var front, last := log[..|log| - 1], log[|log| - 1];
      UnreadMembers(front, sids);
      assert log == front + [last];
    }
  }

  lemma {:induction false} UnreadOnce(log: seq<Message>, sids: set<int>, m: Message)
    requires forall i, j :: 0 <= i < j < |log| ==> log[i] != log[j]
    ensures multiset(UnreadIn(log, sids))[m] <= 1
  {
    if log != [] {
      var front, last := log[..|log| - 1], log[|log| - 1];
      UnreadOnce(front, sids, m);
      UnreadNext(front, last, sids);
      assert log == front + [last];
      if m == last {
        UnreadMembers(front, sids);
        assert last !in front;
      }
    }
  }

  lemma OnceInSeq(rows: seq<Message>, i: nat, j: nat)
    requires i < j < |rows| && rows[i] == rows[j]
    ensures multiset(rows)[rows[i]] > 1
  {
    assert rows == rows[..j] + [rows[j]] + rows[j + 1..];
    assert rows[i] in rows[..j];
  }

  // On the rows: what the join holds is the unread messages of those sessions, each once, by time.
  lemma AnswerMembers(s: Chat, sids: set<int>, got: seq<Message>)
    requires Reachable(s) && Answers(got, s.db.log, sids)
    ensures forall m :: m in got <==> m in s.db.log && !m.read && m.session in sids
    ensures OnceByTime(got)
  {
    ReachableOk(s);
    UnreadMembers(s.db.log, sids);
    forall m ensures m in got <==> m in UnreadIn(s.db.log, sids) {
      assert m in got <==> m in multiset(got);
      assert m in UnreadIn(s.db.log, sids) <==> m in multiset(UnreadIn(s.db.log, sids));
    }
    forall i, j | 0 <= i < j < |got| ensures got[i].id != got[j].id {
      if got[i].id == got[j].id {
        assert got[i] in s.db.log && got[j] in s.db.log;
        SameIdSameRow(s, got[i], got[j]);
        OnceInSeq(got, i, j);
        UnreadOnce(s.db.log, sids, got[i]);
      }
    }
  }

  lemma SameIdSameRow(s: Chat, a: Message, b: Message)
    requires Reachable(s) && a in s.db.log && b in s.db.log && a.id == b.id
    ensures a == b
  {
    ReachableOk(s);
  }

  // The tail of a session is its unread messages, numbered without a gap up to its last.
  lemma TailIsUnread(s: Chat, sid: int)
    requires Reachable(s)
    ensures forall m :: m in Tail(s.db.log, sid) <==> m in s.db.log && m.session == sid && !m.read
    ensures var n, tail := |RowsOf(s.db.log, sid)|, Tail(s.db.log, sid);
      forall k :: 0 <= k < |tail| ==> tail[k].seqNum == n - |tail| + 1 + k
  {
    RowsInOrder(s, sid);
    RowsOfMembers(s.db.log, sid);
    var rows, tail := RowsOf(s.db.log, sid), Tail(s.db.log, sid);
    var w := ReadCount(rows);
    assert forall k :: 0 <= k < |tail| ==> tail[k] == rows[w + k];
    forall m | m in s.db.log && m.session == sid && !m.read ensures m in tail {
      assert m in rows;
      var i :| 0 <= i < |rows| && rows[i] == m;
      assert tail[i - w] == m;
    }
  }

  // A visitor is pushed exactly the unread tails of the open sessions; OpenSessions says when
  // there is only one, and then that tail is all.
  lemma VisitorGetsUnreadTails(s: Chat, visitor: Int64, got: seq<Message>, sid: int)
    requires Reachable(s) && Answers(got, s.db.log, OpenOf(s.db.sessions, visitor))
    ensures var table := s.db.sessions;
      var open := sid in table && table[sid].visitor == visitor && table[sid].status != Closed;
      multiset(RowsOf(got, sid)) == multiset(if open then Tail(s.db.log, sid) else [])
    ensures var table := s.db.sessions;
      (forall id :: id in table && table[id].visitor == visitor && table[id].status != Closed <==> id == sid) ==>
        multiset(got) == multiset(Tail(s.db.log, sid))
    ensures var table := s.db.sessions;
      (forall id :: id in table && table[id].visitor == visitor ==> table[id].status == Closed) ==> got == []
  {
    var open := OpenOf(s.db.sessions, visitor);
    var table := s.db.sessions;
    AnswerHoldsTails(s, open, got, sid);
    if forall id :: id in table && table[id].visitor == visitor && table[id].status != Closed <==> id == sid {
      assert open == {sid};
    }
    if forall id :: id in table && table[id].visitor == visitor ==> table[id].status == Closed {
      assert forall id :: id !in open;
      assert open == {};
    }
    if open == {sid} {
      UnreadOfOne(s.db.log, sid);
      RowsInOrder(s, sid);
      RowsOfMembers(s.db.log, sid);
      UnreadIsTail(RowsOf(s.db.log, sid), sid, ReadCount(RowsOf(s.db.log, sid)));
    }
    if open == {} {
      UnreadOfNone(s.db.log);
      assert |got| == |multiset(got)|;
    }
  }

  // An agent is pushed the unread tails of the agent's open sessions, each message once.
  lemma AgentGetsUnreadTails(s: Chat, agent: Int64, got: seq<Message>, sid: int)
    requires Reachable(s) && Answers(got, s.db.log, OpenWith(s.db.sessions, agent))
    ensures var table := s.db.sessions;
      var open := sid in table && table[sid].agent == agent && table[sid].status != Closed;
      multiset(RowsOf(got, sid)) == multiset(if open then Tail(s.db.log, sid) else [])
  {
    AnswerHoldsTails(s, OpenWith(s.db.sessions, agent), got, sid);
  }

  predicate Increasing(rows: seq<Message>) {
    forall i, j :: 0 <= i < j < |rows| ==> rows[i].created < rows[j].created
  }

  lemma SameLength(a: seq<Message>, b: seq<Message>)
    requires multiset(a) == multiset(b)
    ensures |a| == |b|
  {
    assert |a| == |multiset(a)| && |b| == |multiset(b)|;
  }

  lemma WithoutLast(a: seq<Message>)
    requires a != []
    ensures multiset(a[..|a| - 1]) == multiset(a) - multiset{a[|a| - 1]}
  {
    assert a == a[..|a| - 1] + [a[|a| - 1]];
  }

  lemma FrontsToo(a: seq<Message>, b: seq<Message>)
    requires multiset(a) == multiset(b) && |a| == |b| > 0 && a[|a| - 1] == b[|b| - 1]
    ensures multiset(a[..|a| - 1]) == multiset(b[..|b| - 1])
  {
    WithoutLast(a);
    WithoutLast(b);
  }

  // There is one way to order rows whose times all differ.
  lemma {:induction false} OneOrder(a: seq<Message>, b: seq<Message>)
    requires multiset(a) == multiset(b) && ByTime(a) && Increasing(b)
    ensures a == b
  {
    SameLength(a, b);
    if b != [] {
      LastIsLast(a, b);
      FrontsToo(a, b);
      OneOrder(a[..|a| - 1], b[..|b| - 1]);
      assert a == a[..|a| - 1] + [a[|a| - 1]] && b == b[..|b| - 1] + [b[|b| - 1]];
    }
  }

  lemma LastIsLast(a: seq<Message>, b: seq<Message>)
    requires multiset(a) == multiset(b) && |a| == |b| > 0 && ByTime(a) && Increasing(b)
    ensures a[|a| - 1] == b[|b| - 1]
  {
    var x, y := a[|a| - 1], b[|b| - 1];
    assert x in multiset(b) && y in multiset(a);
    var i :| 0 <= i < |b| && b[i] == x;
    var j :| 0 <= j < |a| && a[j] == y;
    assert y.created <= x.created;
  }

  lemma TakenOut(rows: seq<Message>, q: nat)
    requires q < |rows|
    ensures multiset(rows) == multiset(rows[..q] + rows[q + 1..]) + multiset{rows[q]}
  {
    assert rows == rows[..q] + [rows[q]] + rows[q + 1..];
  }

  lemma OlderGoFirst(m: Message, sorted: seq<Message>) returns (p: nat)
    requires ByTime(sorted)
    ensures p < |InsertByTime(m, sorted)| && InsertByTime(m, sorted)[p] == m
    ensures forall i :: 0 <= i < p ==> InsertByTime(m, sorted)[i].created < m.created
  {
    p := InsertSplits(m, sorted);
    var all := InsertByTime(m, sorted);
    forall i | 0 <= i < p ensures all[i].created < m.created {
      assert all[i] == sorted[i];
    }
  }

  // An answer in which row q comes before all that are not older.
  lemma TurnedAnswer(log: seq<Message>, sids: set<int>, q: nat) returns (got: seq<Message>, p: nat)
    requires q < |UnreadIn(log, sids)|
    ensures Answers(got, log, sids) && p < |got| && got[p] == UnreadIn(log, sids)[q]
    ensures forall i :: 0 <= i < p ==> got[i].created < got[p].created
  {
    var unread := UnreadIn(log, sids);
    var rest := unread[..q] + unread[q + 1..];
    SortAnswers(rest);
    p := OlderGoFirst(unread[q], SortByTime(rest));
    InsertKeepsTime(unread[q], SortByTime(rest));
    got := InsertByTime(unread[q], SortByTime(rest));
    TakenOut(unread, q);
  }

  lemma TailInOrder(s: Chat, sids: set<int>, sid: int, got: seq<Message>)
    requires Reachable(s) && sid in sids && Answers(got, s.db.log, sids) && Increasing(Tail(s.db.log, sid))
    ensures RowsOf(got, sid) == Tail(s.db.log, sid)
  {
    AnswerHoldsTails(s, sids, got, sid);
    OneOrder(RowsOf(got, sid), Tail(s.db.log, sid));
  }

  lemma OlderOnlyBefore(got: seq<Message>, p: nat, sid: int)
    requires p < |got| && forall i :: 0 <= i < p ==> got[i].created < got[p].created
    ensures forall m :: m in RowsOf(got[..p], sid) ==> m.created < got[p].created
  {
    RowsOfMembers(got[..p], sid);
  }

  lemma TailRow(s: Chat, sids: set<int>, sid: int, j: nat) returns (q: nat)
    requires Reachable(s) && sid in sids && j < |Tail(s.db.log, sid)|
    ensures q < |UnreadIn(s.db.log, sids)| && UnreadIn(s.db.log, sids)[q] == Tail(s.db.log, sid)[j]
    ensures Tail(s.db.log, sid)[j].session == sid
  {
    JoinIsTails(s, sids, sid);
    RowsOfMembers(UnreadIn(s.db.log, sids), sid);
    assert Tail(s.db.log, sid)[j] in UnreadIn(s.db.log, sids);
    q :| 0 <= q < |UnreadIn(s.db.log, sids)| && UnreadIn(s.db.log, sids)[q] == Tail(s.db.log, sid)[j];
  }

  lemma TailTurned(s: Chat, sids: set<int>, sid: int, i: nat, j: nat) returns (got: seq<Message>)
    requires Reachable(s) && sid in sids && i < j < |Tail(s.db.log, sid)|
    requires Tail(s.db.log, sid)[i].created >= Tail(s.db.log, sid)[j].created
    ensures Answers(got, s.db.log, sids) && RowsOf(got, sid) != Tail(s.db.log, sid)
  {
    var tail := Tail(s.db.log, sid);
    var q := TailRow(s, sids, sid, j);
    var p;
    got, p := TurnedAnswer(s.db.log, sids, q);
    var before := RowsOf(got[..p], sid);
    RowsOfAround(got, p, sid);
    OlderOnlyBefore(got, p, sid);
    assert forall k :: 0 <= k < |before| ==> before[k] in before;
    if RowsOf(got, sid) == tail {
      TailIsDistinct(s, sid, |before|, j);
      assert false;
    }
  }

  lemma RowsOfAround(rows: seq<Message>, p: nat, sid: int)
    requires p < |rows| && rows[p].session == sid
    ensures RowsOf(rows, sid) == RowsOf(rows[..p], sid) + [rows[p]] + RowsOf(rows[p + 1..], sid)
  {
    RowsOfConcat(rows[..p] + [rows[p]], rows[p + 1..], sid);
    RowsOfAppend(rows[..p], rows[p], sid);
    assert rows == rows[..p] + [rows[p]] + rows[p + 1..];
  }

  lemma TailIsDistinct(s: Chat, sid: int, a: nat, b: nat)
    requires Reachable(s) && a < |Tail(s.db.log, sid)| && b < |Tail(s.db.log, sid)|
    requires Tail(s.db.log, sid)[a] == Tail(s.db.log, sid)[b]
    ensures a == b
  {
    RowsInOrder(s, sid);
    var rows := RowsOf(s.db.log, sid);
    var w := ReadCount(rows);
    assert rows[w + a].seqNum == w + a + 1 && rows[w + b].seqNum == w + b + 1;
  }

  // Whatever the database makes of equal times, a session's messages are pushed in the order they
  // were sent exactly when the clocks of the nodes that stored them put them in that order.
  lemma PushedInOrderIff(s: Chat, sids: set<int>, sid: int)
    requires Reachable(s) && sid in sids
    ensures (forall got :: Answers(got, s.db.log, sids) ==> RowsOf(got, sid) == Tail(s.db.log, sid))
      <==> Increasing(Tail(s.db.log, sid))
  {
    var tail := Tail(s.db.log, sid);
    if Increasing(tail) {
      forall got | Answers(got, s.db.log, sids) ensures RowsOf(got, sid) == tail {
        TailInOrder(s, sids, sid, got);
      }
    } else {
      var i, j :| 0 <= i < j < |tail| && tail[i].created >= tail[j].created;
      var got := TailTurned(s, sids, sid, i, j);
    }
  }

  // Session 1 is open and holds one message, stored by a node whose clock said 5.
  lemma OneStored() returns (s: Chat)
    ensures Reachable(s) && OpenOf(s.db.sessions, 7) == {1} && s.db.nextMessage == 2
    ensures s.db.log == [Row(Draft(1, FromVisitor, 7, "hello"), 1, 1, 5)] && s.tasks.Keys == {0}
  {
    var d := Draft(1, FromVisitor, 7, "hello");
    s := OpenSessions.OneOpen();
    s := Then(s, ReadMax(0));
    assert s.tasks == map[0 := HasSeq(d, 0, 1)];
    s := Then(s, TakeId(0));
    assert s.tasks == map[0 := HasId(d, 0, 1, 1)];
    s := Then(s, Commit(0, 5, true));
  }

  // A second message is about to be stored by another node.
  lemma SecondPending() returns (s: Chat)
    ensures Reachable(s) && OpenOf(s.db.sessions, 7) == {1}
    ensures s.db.log == [Row(Draft(1, FromVisitor, 7, "hello"), 1, 1, 5)]
    ensures 1 in s.tasks && s.tasks[1] == HasId(Draft(1, FromAgent, 9, "hi"), 0, 2, 2)
  {
    s := OneStored();
    OneRow(s.db.log);
    s := Then(s, BeginSend(1, Draft(1, FromAgent, 9, "hi")));
    s := Then(s, ReadMax(1));
    s := Then(s, TakeId(1));
  }

  lemma OneRow(log: seq<Message>)
    requires |log| == 1 && log[0].session == 1 && log[0].seqNum == 1
    ensures MaxSeq(RowsOf(log, 1)) == 1
  {
    RowsOfNext([], log[0], 1);
    assert [] + [log[0]] == log;
    MaxIsLength(log);
  }

  // That node's clock says 3, and the visitor may be pushed the answer before the question.
  lemma PushedOutOfOrder() returns (s: Chat, got: seq<Message>)
    ensures Reachable(s) && OpenOf(s.db.sessions, 7) == {1} && !Increasing(Tail(s.db.log, 1))
    ensures Answers(got, s.db.log, OpenOf(s.db.sessions, 7)) && RowsOf(got, 1) != Tail(s.db.log, 1)
  {
    s := SecondPending();
    var first := s.db.log[0];
    assert forall m :: m in s.db.log ==> m == first;
    s := Then(s, Commit(1, 3, true));
    var second := Row(Draft(1, FromAgent, 9, "hi"), 2, 2, 3);
    TwoRows(s.db.log, first, second);
    got := TailTurned(s, {1}, 1, 0, 1);
  }

  lemma TwoRows(log: seq<Message>, first: Message, second: Message)
    requires log == [first, second] && first.session == second.session == 1 && !first.read && !second.read
    ensures Tail(log, 1) == log
  {
    RowsOfNext([], first, 1);
    RowsOfNext([first], second, 1);
    assert [] + [first] == [first] && [first] + [second] == log;
    WatermarkIsCount(log, 0);
  }

  /* ---- history pages ---- */

  // WHERE seq_num < before, only when before is positive.
  function Before(rows: seq<Message>, before: int): seq<Message> {
    if rows == [] then []
    else
      var last := rows[|rows| - 1];
      Before(rows[..|rows| - 1], before) + (if before > 0 && last.seqNum >= before then [] else [last])
  }

  // ORDER BY seq_num DESC
  function InsertDesc(sorted: seq<Message>, m: Message): seq<Message> {
    if sorted == [] || m.seqNum > sorted[0].seqNum then [m] + sorted
    else [sorted[0]] + InsertDesc(sorted[1..], m)
  }

  function SortDesc(rows: seq<Message>): seq<Message> {
    if rows == [] then [] else InsertDesc(SortDesc(rows[..|rows| - 1]), rows[|rows| - 1])
  }

  function PageSize(limit: int): (size: nat)
    ensures size > 0
  {
    if limit <= 0 then 20 else limit
  }

  function Take(rows: seq<Message>, n: nat): seq<Message> {
    if n < |rows| then rows[..n] else rows
  }

  function Page(log: seq<Message>, sid: int, before: int, limit: int): seq<Message> {
    Take(SortDesc(Before(RowsOf(log, sid), before)), PageSize(limit))
  }

  function Reverse(rows: seq<Message>): (r: seq<Message>)
    ensures |r| == |rows| && forall k :: 0 <= k < |r| ==> r[k] == rows[|rows| - 1 - k]
  {
    seq(|rows|, k requires 0 <= k < |rows| => rows[|rows| - 1 - k])
  }

  lemma {:induction false} BeforeIsPrefix(rows: seq<Message>, before: int)
    requires Gapless(rows)
    ensures Before(rows, before) == if 0 < before <= |rows| then rows[..before - 1] else rows
  {
    if rows != [] {
      BeforeIsPrefix(rows[..|rows| - 1], before);
    }
  }

  lemma {:induction false} SortReverses(rows: seq<Message>)
    requires Gapless(rows)
    ensures SortDesc(rows) == Reverse(rows)
  {
    if rows != [] {
      var front := rows[..|rows| - 1];
      SortReverses(front);
      assert Reverse(rows) == [rows[|rows| - 1]] + Reverse(front);
    }
  }

  // The same message, apart from its read flag.
  predicate SameMessage(a: Message, b: Message) {
    a.(read := true) == b.(read := true)
  }

  // The page holds the newest `size` of the first `left` rows, newest first.
  predicate Slice(page: seq<Message>, rows: seq<Message>, left: nat, size: nat)
    requires left <= |rows|
  {
    && |page| == (if size < left then size else left)
    && forall k :: 0 <= k < |page| ==> SameMessage(page[k], rows[left - 1 - k])
  }

  // The rows below before_seq; everything when it is 0 or negative.
  function Below(n: nat, before: int): (top: nat)
    ensures top <= n
  {
    if 0 < before <= n then before - 1 else n
  }

  lemma NewestFirst(rows: seq<Message>, left: nat, size: nat)
    requires left <= |rows|
    ensures Slice(Take(Reverse(rows[..left]), size), rows, left, size)
  {
    var page := Take(Reverse(rows[..left]), size);
    forall k | 0 <= k < |page| ensures SameMessage(page[k], rows[left - 1 - k]) {
      assert page[k] == rows[..left][left - 1 - k];
    }
  }

  // A page of an orderly session: the newest rows below `before`, newest first.
  lemma PageIsSlice(log: seq<Message>, sid: int, before: int, limit: int)
    requires Gapless(RowsOf(log, sid))
    ensures var rows := RowsOf(log, sid);
      var top := if 0 < before <= |rows| then before - 1 else |rows|;
      Slice(Page(log, sid, before, limit), rows, top, if limit > 0 then limit else 20)
  {
    var rows := RowsOf(log, sid);
    var left := Below(|rows|, before);
    BeforeIsPrefix(rows, before);
    assert rows[..|rows|] == rows;
    assert Gapless(rows[..left]);
    SortReverses(rows[..left]);
    NewestFirst(rows, left, PageSize(limit));
  }

  // Rows of the session, one number below the other, from top on.
  predicate Descends(page: seq<Message>, log: seq<Message>, sid: int, top: int) {
    forall k :: 0 <= k < |page| ==> page[k] in log && page[k].session == sid && page[k].seqNum == top - k
  }

  lemma PageIsReverse(log: seq<Message>, sid: int, before: int, limit: int)
    requires Gapless(RowsOf(log, sid))
    ensures var rows := RowsOf(log, sid);
      Page(log, sid, before, limit) == Take(Reverse(rows[..Below(|rows|, before)]), PageSize(limit))
  {
    var rows := RowsOf(log, sid);
    BeforeIsPrefix(rows, before);
    assert rows[..|rows|] == rows && Gapless(rows[..Below(|rows|, before)]);
    SortReverses(rows[..Below(|rows|, before)]);
  }

  lemma ReverseDescends(log: seq<Message>, sid: int, left: nat, size: nat)
    requires Gapless(RowsOf(log, sid)) && left <= |RowsOf(log, sid)|
    ensures Descends(Take(Reverse(RowsOf(log, sid)[..left]), size), log, sid, left)
  {
    var rows := RowsOf(log, sid);
    var page := Take(Reverse(rows[..left]), size);
    RowsOfMembers(log, sid);
    forall k | 0 <= k < |page| ensures page[k] in log && page[k].session == sid && page[k].seqNum == left - k {
      assert page[k] == rows[left - 1 - k];
    }
  }

  lemma PageDescends(s: Chat, sid: int, before: int, limit: int)
    requires Reachable(s)
    ensures var page, n, size := Page(s.db.log, sid, before, limit), |RowsOf(s.db.log, sid)|, if limit > 0 then limit else 20;
      var top := if 0 < before <= n then before - 1 else n;
      |page| == (if size < top then size else top) && Descends(page, s.db.log, sid, top)
  {
    RowsInOrder(s, sid);
    PageIsReverse(s.db.log, sid, before, limit);
    ReverseDescends(s.db.log, sid, Below(|RowsOf(s.db.log, sid)|, before), PageSize(limit));
  }

  lemma SliceOfEarlier(page: seq<Message>, rows: seq<Message>, now: seq<Message>, left: nat, size: nat)
    requires left <= |rows| && left <= |now| && Slice(page, now, left, size)
    requires forall k :: 0 <= k < left ==> SameMessage(now[k], rows[k])
    ensures Slice(page, rows, left, size)
  {
    forall k | 0 <= k < |page| ensures SameMessage(page[k], rows[left - 1 - k]) {
      assert SameMessage(page[k], now[left - 1 - k]);
    }
  }

  // A client walks back: the first request has before_seq 0, each next one the smallest
  // sequence number of the page before; other steps run between the requests.
  ghost predicate Walk(states: seq<Chat>, runs: seq<seq<Action>>, pages: seq<seq<Message>>, sid: int, limit: int) {
    && |states| == |pages| == |runs| > 0
    && (forall i :: 0 < i < |states| ==> states[i] == Run(states[i - 1], runs[i]))
    && pages[0] == Page(states[0].db.log, sid, 0, limit)
    && (forall i :: 0 < i < |pages| ==> Follows(states, pages, sid, limit, i))
  }

  ghost predicate Follows(states: seq<Chat>, pages: seq<seq<Message>>, sid: int, limit: int, i: int)
    requires 0 < i < |pages| == |states|
  {
    var prev := pages[i - 1];
    prev != [] && pages[i] == Page(states[i].db.log, sid, prev[|prev| - 1].seqNum, limit)
  }

  // How many of the n rows at the first request are left below the first i pages.
  function LeftAfter(n: nat, i: nat, size: nat): nat {
    if i * size < n then n - i * size else 0
  }

  lemma {:induction false} WalkStates(states: seq<Chat>, runs: seq<seq<Action>>, pages: seq<seq<Message>>, sid: int, limit: int,
      i: nat)
    requires Walk(states, runs, pages, sid, limit) && i < |states| && Reachable(states[0])
    ensures Reachable(states[i]) && Grew(states[0].db.log, states[i].db.log)
  {
    if i > 0 {
      WalkStates(states, runs, pages, sid, limit, i - 1);
      StaysReachable(states[i - 1], runs[i]);
      ReachableOk(states[i - 1]);
      RunGrows(states[i - 1], runs[i]);
      GrewTransitive(states[0].db.log, states[i - 1].db.log, states[i].db.log);
    }
  }

  // Asking below the last message of one slice, on a log that has grown since, gives the next slice.
  lemma NextSlice(rows: seq<Message>, prev: seq<Message>, left: nat, log: seq<Message>, sid: int, limit: int)
    requires Gapless(rows) && Gapless(RowsOf(log, sid)) && Grew(rows, RowsOf(log, sid))
    requires left <= |rows| && prev != [] && Slice(prev, rows, left, PageSize(limit))
    ensures Slice(Page(log, sid, prev[|prev| - 1].seqNum, limit), rows, left - |prev|, PageSize(limit))
  {
    var before := prev[|prev| - 1].seqNum;
    assert SameMessage(prev[|prev| - 1], rows[left - |prev|]);
    assert before == left - |prev| + 1;
    PageIsSlice(log, sid, before, limit);
    SliceOfEarlier(Page(log, sid, before, limit), rows, RowsOf(log, sid), left - |prev|, PageSize(limit));
  }

  // What a later request of the walk finds has grown out of what the first one found.
  lemma WalkRows(states: seq<Chat>, runs: seq<seq<Action>>, pages: seq<seq<Message>>, sid: int, limit: int, i: nat)
    requires Walk(states, runs, pages, sid, limit) && i < |states| && Reachable(states[0])
    ensures var rows, now := RowsOf(states[0].db.log, sid), RowsOf(states[i].db.log, sid);
      Gapless(rows) && Gapless(now) && Grew(rows, now)
  {
    WalkStates(states, runs, pages, sid, limit, i);
    RowsInOrder(states[0], sid);
    RowsInOrder(states[i], sid);
    GrewRows(states[0].db.log, states[i].db.log, sid);
  }

  lemma WalkFollows(states: seq<Chat>, runs: seq<seq<Action>>, pages: seq<seq<Message>>, sid: int, limit: int, i: nat)
    requires Walk(states, runs, pages, sid, limit) && 0 < i < |pages|
    ensures pages[i - 1] != [] && pages[i] == Page(states[i].db.log, sid, pages[i - 1][|pages[i - 1]| - 1].seqNum, limit)
  {
    assert Follows(states, pages, sid, limit, i);
  }

  lemma OneFurther(rows: seq<Message>, prev: seq<Message>, log: seq<Message>, sid: int, limit: int, i: nat)
    requires Gapless(rows) && Gapless(RowsOf(log, sid)) && Grew(rows, RowsOf(log, sid)) && prev != [] && i > 0
    requires Slice(prev, rows, LeftAfter(|rows|, i - 1, PageSize(limit)), PageSize(limit))
    ensures Slice(Page(log, sid, prev[|prev| - 1].seqNum, limit), rows, LeftAfter(|rows|, i, PageSize(limit)), PageSize(limit))
  {
    NextSlice(rows, prev, LeftAfter(|rows|, i - 1, PageSize(limit)), log, sid, limit);
    LeftStep(|rows|, i, PageSize(limit));
  }

  ghost predicate PageOk(states: seq<Chat>, pages: seq<seq<Message>>, sid: int, limit: int, i: nat)
    requires |states| > 0 && i < |pages|
  {
    var rows, size := RowsOf(states[0].db.log, sid), PageSize(limit);
    Slice(pages[i], rows, LeftAfter(|rows|, i, size), size)
  }

  lemma FirstPage(states: seq<Chat>, runs: seq<seq<Action>>, pages: seq<seq<Message>>, sid: int, limit: int)
    requires Walk(states, runs, pages, sid, limit) && Reachable(states[0])
    ensures PageOk(states, pages, sid, limit, 0)
  {
    RowsInOrder(states[0], sid);
    PageIsSlice(states[0].db.log, sid, 0, limit);
  }

  lemma NextPage(states: seq<Chat>, runs: seq<seq<Action>>, pages: seq<seq<Message>>, sid: int, limit: int, i: nat)
    requires Walk(states, runs, pages, sid, limit) && 0 < i < |pages| && Reachable(states[0])
    requires PageOk(states, pages, sid, limit, i - 1)
    ensures PageOk(states, pages, sid, limit, i)
  {
    WalkRows(states, runs, pages, sid, limit, i);
    WalkFollows(states, runs, pages, sid, limit, i);
    OneFurther(RowsOf(states[0].db.log, sid), pages[i - 1], states[i].db.log, sid, limit, i);
  }

  // Page i is exactly the i-th slice, newest first, of the log at the first request: nothing
  // sent, marked read or closed meanwhile repeats, skips or adds a message.
  lemma {:induction false} WalkIsTheLog(states: seq<Chat>, runs: seq<seq<Action>>, pages: seq<seq<Message>>, sid: int, limit: int,
      i: nat)
    requires Walk(states, runs, pages, sid, limit) && i < |pages| && Reachable(states[0])
    ensures PageOk(states, pages, sid, limit, i)
    ensures var rows, size := RowsOf(states[0].db.log, sid), if limit > 0 then limit else 20;
      var left := if i * size < |rows| then |rows| - i * size else 0;
      && |pages[i]| == (if size < left then size else left)
      && forall k :: 0 <= k < |pages[i]| ==> SameMessage(pages[i][k], rows[left - 1 - k])
  {
    if i == 0 {
      FirstPage(states, runs, pages, sid, limit);
    } else {
      WalkIsTheLog(states, runs, pages, sid, limit, i - 1);
      NextPage(states, runs, pages, sid, limit, i);
    }
  }

  lemma LeftStep(n: nat, i: nat, size: nat)
    requires i > 0
    ensures var left := LeftAfter(n, i - 1, size);
      LeftAfter(n, i, size) == left - (if size < left then size else left)
  {
    assert i * size == (i - 1) * size + size;
  }

  lemma EmptyIffNothingLeft(n: nat, i: nat, size: nat, page: nat)
    requires size > 0 && page == (var left := LeftAfter(n, i, size); if size < left then size else left)
    ensures page == 0 <==> i * size >= n
  {
  }

  // The walk ends: it meets an empty page exactly when the whole log has been delivered, and no
  // request but the one that ends it starts when nothing is left.
  lemma WalkEnds(states: seq<Chat>, runs: seq<seq<Action>>, pages: seq<seq<Message>>, sid: int, limit: int)
    requires Walk(states, runs, pages, sid, limit) && Reachable(states[0])
    ensures var n, last := |RowsOf(states[0].db.log, sid)|, |pages| - 1;
      var size := if limit > 0 then limit else 20;
      && (pages[last] == [] <==> last * size >= n)
      && (last > 0 ==> (last - 1) * size < n)
      && |pages| <= n + 1
  {
    var n, size, last := |RowsOf(states[0].db.log, sid)|, PageSize(limit), |pages| - 1;
    PageEndsIff(states, runs, pages, sid, limit, last);
    if last > 0 {
      PageEndsIff(states, runs, pages, sid, limit, last - 1);
      assert Follows(states, pages, sid, limit, last);
      AtLeast(last - 1, size);
    }
  }

  lemma PageEndsIff(states: seq<Chat>, runs: seq<seq<Action>>, pages: seq<seq<Message>>, sid: int, limit: int, i: nat)
    requires Walk(states, runs, pages, sid, limit) && Reachable(states[0]) && i < |pages|
    ensures pages[i] == [] <==> i * PageSize(limit) >= |RowsOf(states[0].db.log, sid)|
  {
    WalkIsTheLog(states, runs, pages, sid, limit, i);
    EmptyIffNothingLeft(|RowsOf(states[0].db.log, sid)|, i, PageSize(limit), |pages[i]|);
  }

  lemma AtLeast(i: nat, size: nat)
    requires size > 0
    ensures i <= i * size
  {
  }

  function Flatten(pages: seq<seq<Message>>): seq<Message> {
    if pages == [] then [] else Flatten(pages[..|pages| - 1]) + pages[|pages| - 1]
  }

  lemma {:induction false} FlattenWalk(states: seq<Chat>, runs: seq<seq<Action>>, pages: seq<seq<Message>>, sid: int, limit: int,
      i: nat)
    requires Walk(states, runs, pages, sid, limit) && i <= |pages| && Reachable(states[0])
    ensures var rows := RowsOf(states[0].db.log, sid);
      var got := Flatten(pages[..i]);
      && |got| == |rows| - LeftAfter(|rows|, i, PageSize(limit))
      && forall k :: 0 <= k < |got| ==> SameMessage(got[k], rows[|rows| - 1 - k])
  {
    if i > 0 {
      var n := |RowsOf(states[0].db.log, sid)|;
      FlattenWalk(states, runs, pages, sid, limit, i - 1);
      WalkIsTheLog(states, runs, pages, sid, limit, i - 1);
      LeftStep(n, i, PageSize(limit));
      assert pages[..i][..i - 1] == pages[..i - 1] && pages[..i][i - 1] == pages[i - 1];
    }
  }

  // A finished walk delivered the log as it stood at the first request: newest first, each message once.
  lemma FinishedWalkDeliversTheLog(states: seq<Chat>, runs: seq<seq<Action>>, pages: seq<seq<Message>>, sid: int, limit: int)
    requires Walk(states, runs, pages, sid, limit) && Reachable(states[0]) && pages[|pages| - 1] == []
    ensures var rows, got := RowsOf(states[0].db.log, sid), Flatten(pages);
      && |got| == |rows|
      && forall k :: 0 <= k < |got| ==> SameMessage(got[k], rows[|rows| - 1 - k])
  {
    WalkEnds(states, runs, pages, sid, limit);
    FlattenWalk(states, runs, pages, sid, limit, |pages|);
    assert pages[..|pages|] == pages;
    LeftStep(|RowsOf(states[0].db.log, sid)|, |pages|, PageSize(limit));
  }
}
