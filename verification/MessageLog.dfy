/**
 What a session's slice of the message table looks like when it is in order: sequence
 numbers 1..n, ids ascending with them, and a read watermark. Everything here is about
 one table value; ChatServer shows that every reachable table is in order.
 */
module MessageLog {
  import opened Tables

  predicate Gapless(rows: seq<Message>) {
    forall k :: 0 <= k < |rows| ==> rows[k].seqNum == k + 1
  }

  predicate IdsAscend(rows: seq<Message>) {
    forall i, j :: 0 <= i < j < |rows| ==> rows[i].id < rows[j].id
  }

  predicate ReadUpTo(rows: seq<Message>, w: nat) {
    w <= |rows| && forall k :: 0 <= k < |rows| ==> (rows[k].read <==> k < w)
  }

  // The watermark: how many rows are marked read.
  function ReadCount(rows: seq<Message>): (n: nat)
    ensures n <= |rows|
  {
    if rows == [] then 0
    else ReadCount(rows[..|rows| - 1]) + (if rows[|rows| - 1].read then 1 else 0)
  }

  predicate InOrder(rows: seq<Message>) {
    Gapless(rows) && IdsAscend(rows) && ReadUpTo(rows, ReadCount(rows))
  }

  // Appending rows and turning read flags on are the only ways a table changes.
  predicate Grew(a: seq<Message>, b: seq<Message>) {
    |a| <= |b| && forall i :: 0 <= i < |a| ==> b[i] == a[i] || b[i] == a[i].(read := true)
  }

  lemma {:induction false} WatermarkIsCount(rows: seq<Message>, w: nat)
    requires ReadUpTo(rows, w)
    ensures ReadCount(rows) == w
  {
    if rows != [] {
      var front := rows[..|rows| - 1];
      WatermarkIsCount(front, if w == |rows| then w - 1 else w);
    }
  }

  lemma {:induction false} MaxIsLength(rows: seq<Message>)
    requires Gapless(rows)
    ensures MaxSeq(rows) == |rows|
  {
    if rows != [] { MaxIsLength(rows[..|rows| - 1]); }
  }

  lemma RowsOfAppend(log: seq<Message>, m: Message, sid: int)
    ensures RowsOf(log + [m], sid) == RowsOf(log, sid) + (if m.session == sid then [m] else [])
  {
    assert (log + [m])[..|log|] == log;
  }

  lemma RowsOfNext(log: seq<Message>, m: Message, sid: int)
    ensures RowsOf(log + [m], sid) == if m.session == sid then RowsOf(log, sid) + [m] else RowsOf(log, sid)
  {
    RowsOfAppend(log, m, sid);
    assert RowsOf(log, sid) + [] == RowsOf(log, sid);
  }

  lemma {:induction false} RowsOfMarkRead(log: seq<Message>, sid: int, upTo: int, other: int)
    ensures RowsOf(MarkRead(log, sid, upTo), other) == MarkRead(RowsOf(log, other), sid, upTo)
  {
    if log != [] {
      var front := log[..|log| - 1];
      var last := log[|log| - 1];
      RowsOfMarkRead(front, sid, upTo, other);
      assert MarkRead(log, sid, upTo)[..|log| - 1] == MarkRead(front, sid, upTo);
      assert MarkRead(RowsOf(front, other) + [last], sid, upTo)
          == MarkRead(RowsOf(front, other), sid, upTo) + MarkRead([last], sid, upTo);
    }
  }

  lemma {:induction false} RowsOfMembers(log: seq<Message>, sid: int)
    ensures forall m :: m in RowsOf(log, sid) <==> m in log && m.session == sid
    ensures forall k :: 0 <= k < |RowsOf(log, sid)| ==> RowsOf(log, sid)[k].session == sid
  {
    if log != [] {
      RowsOfMembers(log[..|log| - 1], sid);
      assert log == log[..|log| - 1] + [log[|log| - 1]];
    }
  }

  // How many leading ids are at most upTo.
  function IdsUpTo(rows: seq<Message>, upTo: int): (n: nat)
    requires IdsAscend(rows)
    ensures n <= |rows| && forall k :: 0 <= k < |rows| ==> (rows[k].id <= upTo <==> k < n)
  {
    if rows == [] || rows[|rows| - 1].id <= upTo then |rows| else IdsUpTo(rows[..|rows| - 1], upTo)
  }

  // Marking up to any id the client sends moves the watermark forward or leaves it.
  lemma MarkReadMovesWatermark(rows: seq<Message>, sid: int, upTo: int)
    requires InOrder(rows) && forall k :: 0 <= k < |rows| ==> rows[k].session == sid
    ensures var marked := MarkRead(rows, sid, upTo);
      InOrder(marked) &&
      ReadCount(marked) == if IdsUpTo(rows, upTo) > ReadCount(rows) then IdsUpTo(rows, upTo) else ReadCount(rows)
  {
    var n, w := IdsUpTo(rows, upTo), ReadCount(rows);
    WatermarkIsCount(MarkRead(rows, sid, upTo), if n > w then n else w);
  }

  lemma AppendKeepsOrder(rows: seq<Message>, m: Message)
    requires InOrder(rows) && m.seqNum == |rows| + 1 && !m.read
    requires forall k :: 0 <= k < |rows| ==> rows[k].id < m.id
    ensures InOrder(rows + [m]) && ReadCount(rows + [m]) == ReadCount(rows)
  {
    WatermarkIsCount(rows + [m], ReadCount(rows));
  }

  // A sequence number that is free and at most n + 1 is n + 1: the unique index leaves no gap.
  lemma FreeSeqIsNext(log: seq<Message>, sid: int, seqNum: nat)
    requires Gapless(RowsOf(log, sid)) && 1 <= seqNum <= |RowsOf(log, sid)| + 1
    ensures !Taken(log, sid, seqNum) <==> seqNum == |RowsOf(log, sid)| + 1
  {
    var rows := RowsOf(log, sid);
    RowsOfMembers(log, sid);
    if seqNum <= |rows| {
      assert rows[seqNum - 1] in log;
    } else {
      assert forall m :: m in log && m.session == sid ==> m in rows;
    }
  }

  lemma {:induction false} GrewRows(a: seq<Message>, b: seq<Message>, sid: int)
    requires Grew(a, b)
    ensures Grew(RowsOf(a, sid), RowsOf(b, sid))
    ensures |a| == |b| ==> |RowsOf(a, sid)| == |RowsOf(b, sid)|
    decreases |b|
  {
    if b == [] {
    } else {
      var front, last := b[..|b| - 1], b[|b| - 1];
      RowsOfAppend(front, last, sid);
      assert b == front + [last];
      if |a| < |b| {
        GrewRows(a, front, sid);
      } else {
        var front', last' := a[..|a| - 1], a[|a| - 1];
        GrewRows(front', front, sid);
        RowsOfAppend(front', last', sid);
        assert a == front' + [last'];
      }
    }
  }

  lemma GrewTransitive(a: seq<Message>, b: seq<Message>, c: seq<Message>)
    requires Grew(a, b) && Grew(b, c)
    ensures Grew(a, c)
  {
    forall i | 0 <= i < |a| ensures c[i] == a[i] || c[i] == a[i].(read := true) {
      assert b[i] == a[i] || b[i] == a[i].(read := true);
    }
  }

  lemma {:induction false} GrewWatermark(a: seq<Message>, b: seq<Message>)
    requires Grew(a, b)
    ensures ReadCount(a) <= ReadCount(b)
    decreases |b|
  {
    if b != [] {
      var front := b[..|b| - 1];
      if |a| == |b| { GrewWatermark(a[..|a| - 1], front); } else { GrewWatermark(a, front); }
    }
  }
}
