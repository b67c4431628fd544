/**
 The per-node peer cache over the shared tables. Nodes never tell each other about a change, a
 fill may carry values read long ago, and a create fills the cache before its transaction commits
 or rolls back. Every answer is nonetheless one the table would give.
 */
module PeerCache {
  import opened Tables
  import opened UserKeys
  import opened ChatSessions
  import opened ChatTheorems
  import OpenSessions
  import C = ChatServer

  datatype Role = NoRole | VisitorRole | AgentRole

  datatype Peer = Peer(visitor: Int64, agent: Int64)

  datatype Answer = Answer(user: Int64, role: Role)

  // A call in flight on one node, between two atomic steps.
  datatype Call =
    | Looking(node: nat, session: int, self: int)               // GetPeerIDs, before the cache lookup
    | Missed(node: nat, session: int, self: int)                // ... before the table lookup
    | Fetched(node: nat, session: int, self: int, row: Session) // ... before the cache write
    | Answered(node: nat, session: int, self: int, answer: Answer)
    | Filling(node: nat, session: int, peer: Peer)              // about to write values read earlier
    | Creating(node: nat, t: nat, session: int, visitor: Int64) // row built, cache not yet written
    | Cached(node: nat, t: nat, session: int, visitor: Int64)   // cache written, transaction still open
    | Closing(node: nat, session: int)                          // row closed, entry not yet evicted
    | Ended

  datatype World = World(chat: C.Chat, caches: map<nat, map<int, Peer>>, calls: map<nat, Call>)

  // Table is any step of any handler on the tables. The other events are those of calls that use
  // a cache: CreateOrGetSession (Found, or Create to CommitNew), AcceptSession after its last read
  // (Accepted), CloseSession (Close, Evict) and GetPeerIDs (Ask to Reply).
  datatype Event =
    | Table(a: C.Action)
    | Found(c: nat, node: nat, session: int)
    | Create(c: nat, node: nat, t: nat)
    | WriteNew(c: nat)
    | CommitNew(c: nat)
    | RollBack(c: nat)
    | Accepted(c: nat, node: nat, t: nat)
    | Fill(c: nat)
    | Close(c: nat, node: nat, session: int, reason: string)
    | Evict(c: nat)
    | Ask(c: nat, node: nat, session: int, self: int)
    | LookUp(c: nat)
    | Fetch(c: nat)
    | Reply(c: nat)
    | Restart(node: nat)

  const EMPTY := World(C.INIT, map[], map[])

  function Rows(w: World): map<int, Session> {
    w.chat.db.sessions
  }

  function CacheOf(w: World, node: nat): map<int, Peer> {
    if node in w.caches then w.caches[node] else map[]
  }

  function Cache(w: World, node: nat, sid: int, peer: Peer): World {
    w.(caches := w.caches[node := CacheOf(w, node)[sid := peer]])
  }

  function Move(w: World, c: nat, call: Call): World {
    w.(calls := w.calls[c := call])
  }

  // What one entry answers, if anything.
  function CacheAnswer(peer: Peer, self: int): Option<Answer> {
    if self == peer.visitor && peer.agent > 0 then Some(Answer(peer.agent, AgentRole))
    else if self == peer.agent && peer.visitor > 0 then Some(Answer(peer.visitor, VisitorRole))
    else None
  }

  function RowAnswer(row: Session, self: int): Answer {
    if self == row.visitor && row.agent > 0 then Answer(row.agent, AgentRole)
    else Answer(row.visitor, VisitorRole)
  }

  // What a lookup in the table alone answers.
  function TableAnswer(sessions: map<int, Session>, sid: int, self: int): Answer {
    if sid in sessions then RowAnswer(sessions[sid], self) else Answer(0, NoRole)
  }

  function DoFound(w: World, c: nat, node: nat, sid: int): World {
    if c in w.calls || sid !in Rows(w) then w
    else Move(w, c, Filling(node, sid, Peer(Rows(w)[sid].visitor, Rows(w)[sid].agent)))
  }

  // Handler t is about to insert a session's row.
  function DoCreate(w: World, c: nat, node: nat, t: nat): World {
    if c in w.calls || t !in w.chat.tasks || !w.chat.tasks[t].Inserting? then w
    else Move(w, c, Creating(node, t, w.chat.tasks[t].session, w.chat.tasks[t].visitor))
  }

  function DoAccepted(w: World, c: nat, node: nat, t: nat): World {
    if c in w.calls || t !in w.chat.tasks || !w.chat.tasks[t].Replied? then w
    else
      var task := w.chat.tasks[t];
      Move(w, c, Filling(node, task.session, Peer(task.reply.visitor, task.agent)))
  }

  function DoLookUp(w: World, c: nat): World
    requires c in w.calls && w.calls[c].Looking?
  {
    var Looking(node, sid, self) := w.calls[c];
    var hit := if sid in CacheOf(w, node) then CacheAnswer(CacheOf(w, node)[sid], self) else None;
    Move(w, c, if hit.Some? then Answered(node, sid, self, hit.value) else Missed(node, sid, self))
  }

  function DoFetch(w: World, c: nat): World
    requires c in w.calls && w.calls[c].Missed?
  {
    var Missed(node, sid, self) := w.calls[c];
    Move(w, c, if sid in Rows(w) then Fetched(node, sid, self, Rows(w)[sid])
               else Answered(node, sid, self, Answer(0, NoRole)))
  }

  function Step(w: World, e: Event): World {
    match e
    case Table(a) => w.(chat := C.Step(w.chat, a))
    case Found(c, node, sid) => DoFound(w, c, node, sid)
    case Create(c, node, t) => DoCreate(w, c, node, t)
    case WriteNew(c) =>
      if c in w.calls && w.calls[c].Creating? then
        var Creating(node, t, sid, visitor) := w.calls[c];
        Move(Cache(w, node, sid, Peer(visitor, 0)), c, Cached(node, t, sid, visitor))
      else w
    case CommitNew(c) =>
      if c in w.calls && w.calls[c].Cached? then Move(w.(chat := C.Step(w.chat, C.Insert(w.calls[c].t))), c, Ended) else w
    case RollBack(c) =>
      if c in w.calls && (w.calls[c].Creating? || w.calls[c].Cached?)
      then Move(w.(chat := C.Step(w.chat, C.Abort(w.calls[c].t))), c, Ended) else w
    case Accepted(c, node, t) => DoAccepted(w, c, node, t)
    case Fill(c) =>
      if c in w.calls && w.calls[c].Filling? then
        var Filling(node, sid, peer) := w.calls[c];
        Move(Cache(w, node, sid, peer), c, Ended)
      else w
    case Close(c, node, sid, reason) =>
      if c in w.calls then w else Move(w.(chat := C.Step(w.chat, C.Close(sid, reason))), c, Closing(node, sid))
    case Evict(c) =>
      if c in w.calls && w.calls[c].Closing? then
        var Closing(node, sid) := w.calls[c];
        Move(w.(caches := w.caches[node := CacheOf(w, node) - {sid}]), c, Ended)
      else w
    case Ask(c, node, sid, self) => if c in w.calls then w else Move(w, c, Looking(node, sid, self))
    case LookUp(c) => if c in w.calls && w.calls[c].Looking? then DoLookUp(w, c) else w
    case Fetch(c) => if c in w.calls && w.calls[c].Missed? then DoFetch(w, c) else w
    case Reply(c) =>
      if c in w.calls && w.calls[c].Fetched? then
        var Fetched(node, sid, self, row) := w.calls[c];
        Move(Cache(w, node, sid, Peer(row.visitor, row.agent)), c, Answered(node, sid, self, RowAnswer(row, self)))
      else w
    case Restart(node) => w.(caches := w.caches[node := map[]])
  }

  function Run(w: World, trace: seq<Event>): World {
    if trace == [] then w else Step(Run(w, trace[..|trace| - 1]), trace[|trace| - 1])
  }

  /* ---- what a cached pair may say ---- */

  // An entry with agent 0 may be wrong in every way; one with an agent is exact for ever.
  predicate PeerOk(sessions: map<int, Session>, sid: int, peer: Peer) {
    && peer.visitor > 0 && peer.agent >= 0
    && (peer.agent > 0 ==> AgentIs(sessions, sid, peer.agent) && sessions[sid].visitor == peer.visitor)
  }

  predicate CacheOk(sessions: map<int, Session>, cache: map<int, Peer>) {
    forall sid :: sid in cache ==> PeerOk(sessions, sid, cache[sid])
  }

  predicate CallOk(sessions: map<int, Session>, call: Call) {
    match call
    case Fetched(_, sid, _, row) => PeerOk(sessions, sid, Peer(row.visitor, row.agent))
    case Filling(_, sid, peer) => PeerOk(sessions, sid, peer)
    case Creating(_, _, _, visitor) => visitor > 0
    case Cached(_, _, _, visitor) => visitor > 0
    case _ => true
  }

  ghost predicate WorldOk(w: World) {
    && Reachable(w.chat)
    && (forall node :: node in w.caches ==> CacheOk(Rows(w), w.caches[node]))
    && (forall c :: c in w.calls ==> CallOk(Rows(w), w.calls[c]))
  }

  lemma PeerStays(a: map<int, Session>, b: map<int, Session>, sid: int, peer: Peer)
    requires TableOk(a) && TableMoved(a, b) && PeerOk(a, sid, peer)
    ensures PeerOk(b, sid, peer)
  {
    if peer.agent > 0 { assert RowMoved(a[sid], b[sid]) && RowOk(a[sid]); }
  }

  // No step on the tables makes a cached pair, or one a call is about to cache, wrong.
  lemma TableKeepsWorld(w: World, a: C.Action)
    requires WorldOk(w)
    ensures WorldOk(w.(chat := C.Step(w.chat, a)))
  {
    var before, after := Rows(w), C.Step(w.chat, a).db.sessions;
    ReachableOk(w.chat);
    StepReachable(w.chat, a);
    StepKeepsSessions(w.chat, a);
    forall sid, peer | PeerOk(before, sid, peer) ensures PeerOk(after, sid, peer) {
      PeerStays(before, after, sid, peer);
    }
    forall c | c in w.calls ensures CallOk(after, w.calls[c]) {
      assert CallOk(before, w.calls[c]);
    }
    forall node | node in w.caches ensures CacheOk(after, w.caches[node]) {
      assert CacheOk(before, w.caches[node]);
    }
  }

  lemma WriteKeepsWorld(w: World, node: nat, sid: int, peer: Peer)
    requires WorldOk(w) && PeerOk(Rows(w), sid, peer)
    ensures WorldOk(Cache(w, node, sid, peer))
  {
    assert CacheOk(Rows(w), CacheOf(w, node));
  }

  lemma RowIsOk(w: World, sid: int)
    requires WorldOk(w) && sid in Rows(w)
    ensures PeerOk(Rows(w), sid, Peer(Rows(w)[sid].visitor, Rows(w)[sid].agent))
  {
    ReachableOk(w.chat);
    assert RowOk(Rows(w)[sid]);
  }

  lemma ReplyIsOk(w: World, t: nat)
    requires WorldOk(w) && t in w.chat.tasks && w.chat.tasks[t].Replied?
    ensures PeerOk(Rows(w), w.chat.tasks[t].session, Peer(w.chat.tasks[t].reply.visitor, w.chat.tasks[t].agent))
  {
    ReachableOk(w.chat);
    assert SawOk(Rows(w), w.chat.tasks[t]);
    assert RowOk(Rows(w)[w.chat.tasks[t].session]);
  }

  // Writing to a cache what a call has held since it read it, or dropping an entry.
  lemma CacheEventKeepsWorld(w: World, e: Event)
    requires WorldOk(w) && (e.WriteNew? || e.Fill? || e.Evict? || e.Reply?)
    ensures WorldOk(Step(w, e))
  {
    if e.c in w.calls {
      var call := w.calls[e.c];
      assert CallOk(Rows(w), call);
      if e.WriteNew? && call.Creating? { WriteKeepsWorld(w, call.node, call.session, Peer(call.visitor, 0)); }
      if e.Fill? && call.Filling? { WriteKeepsWorld(w, call.node, call.session, call.peer); }
      if e.Evict? && call.Closing? { assert CacheOk(Rows(w), CacheOf(w, call.node)); }
      if e.Reply? && call.Fetched? {
        WriteKeepsWorld(w, call.node, call.session, Peer(call.row.visitor, call.row.agent));
      }
    }
  }

  lemma TableEventKeepsWorld(w: World, e: Event)
    requires WorldOk(w) && (e.Table? || e.CommitNew? || e.RollBack? || e.Close?)
    ensures WorldOk(Step(w, e))
  {
    match e
    case Table(a) => TableKeepsWorld(w, a);
    case CommitNew(c) => if c in w.calls && w.calls[c].Cached? { TableKeepsWorld(w, C.Insert(w.calls[c].t)); }
    case RollBack(c) =>
      if c in w.calls && (w.calls[c].Creating? || w.calls[c].Cached?) { TableKeepsWorld(w, C.Abort(w.calls[c].t)); }
    case Close(_, _, sid, reason) => TableKeepsWorld(w, C.Close(sid, reason));
  }

  lemma InsertingIsOk(w: World, t: nat)
    requires WorldOk(w) && t in w.chat.tasks && w.chat.tasks[t].Inserting?
    ensures w.chat.tasks[t].visitor > 0
  {
    ReachableOk(w.chat);
    assert SawOk(Rows(w), w.chat.tasks[t]);
  }

  lemma StepKeepsWorld(w: World, e: Event)
    requires WorldOk(w)
    ensures WorldOk(Step(w, e))
  {
    if e.Table? || e.CommitNew? || e.RollBack? || e.Close? {
      TableEventKeepsWorld(w, e);
    } else if e.WriteNew? || e.Fill? || e.Evict? || e.Reply? {
      CacheEventKeepsWorld(w, e);
    } else if e.Found? && e.session in Rows(w) {
      RowIsOk(w, e.session);
    } else if e.Fetch? && e.c in w.calls && w.calls[e.c].Missed? && w.calls[e.c].session in Rows(w) {
      RowIsOk(w, w.calls[e.c].session);
    } else if e.Create? && e.t in w.chat.tasks && w.chat.tasks[e.t].Inserting? {
      InsertingIsOk(w, e.t);
    } else if e.Accepted? && e.t in w.chat.tasks && w.chat.tasks[e.t].Replied? {
      ReplyIsOk(w, e.t);
    }
  }

  lemma {:induction false} RunKeepsWorld(trace: seq<Event>)
    ensures WorldOk(Run(EMPTY, trace))
  {
    if trace == [] {
      assert C.INIT == C.Run(C.INIT, []);
    } else {
      RunKeepsWorld(trace[..|trace| - 1]);
      StepKeepsWorld(Run(EMPTY, trace[..|trace| - 1]), trace[|trace| - 1]);
    }
  }

  /* ---- transparency ---- */

  // A hit answers what the table would answer at the moment of the lookup.
  lemma HitIsExact(sessions: map<int, Session>, sid: int, peer: Peer, self: int)
    requires PeerOk(sessions, sid, peer) && self != 0 && CacheAnswer(peer, self).Some?
    ensures CacheAnswer(peer, self).value == TableAnswer(sessions, sid, self)
  {
  }

  predicate Open(call: Call, sid: int, self: int) {
    (call.Looking? || call.Missed? || call.Fetched?) && call.session == sid && call.self == self
  }

  // The call was in flight after the first k events, and the table alone then answered this.
  ghost predicate AnsweredAt(trace: seq<Event>, c: nat, sid: int, self: int, answer: Answer, k: nat)
    requires k <= |trace|
  {
    var w := Run(EMPTY, trace[..k]);
    && c in w.calls && Open(w.calls[c], sid, self)
    && if sid !in Rows(w) then answer == Answer(0, NoRole) else
         var row := Rows(w)[sid];
         answer == if self == row.visitor && row.agent > 0 then Answer(row.agent, AgentRole) else Answer(row.visitor, VisitorRole)
  }

  // The answer a call has settled on: from a hit, or from a row it has fetched.
  predicate Settled(call: Call, sid: int, self: int, answer: Answer) {
    || (call.Answered? && call == Answered(call.node, sid, self, answer))
    || (call.Fetched? && call == Fetched(call.node, sid, self, call.row) && answer == RowAnswer(call.row, self))
  }

  // The step on which a call settles happens while the table answers the same.
  lemma SettlingStep(w: World, e: Event, c: nat, sid: int, self: int, answer: Answer)
    requires WorldOk(w) && self != 0
    requires c in Step(w, e).calls && Settled(Step(w, e).calls[c], sid, self, answer)
    ensures c in w.calls && (Settled(w.calls[c], sid, self, answer)
      || (Open(w.calls[c], sid, self) && TableAnswer(Rows(w), sid, self) == answer))
  {
    if e.LookUp? && e.c == c && Step(w, e) != w {
      var node := w.calls[c].node;
      if sid in CacheOf(w, node) {
        assert CacheOk(Rows(w), CacheOf(w, node));
        if CacheAnswer(CacheOf(w, node)[sid], self).Some? { HitIsExact(Rows(w), sid, CacheOf(w, node)[sid], self); }
      }
    }
  }

  // The cache is transparent: over every interleaving on every node, a call by any caller with
  // a non-zero id returns what the table alone would have answered at some moment of the call.
  lemma {:induction false} CacheIsTransparent(trace: seq<Event>, c: nat, sid: int, self: int, answer: Answer)
    requires self != 0
    requires c in Run(EMPTY, trace).calls && Settled(Run(EMPTY, trace).calls[c], sid, self, answer)
    ensures exists k :: 0 <= k <= |trace| && AnsweredAt(trace, c, sid, self, answer, k)
  {
    if trace != [] {
      var front, last := trace[..|trace| - 1], trace[|trace| - 1];
      RunKeepsWorld(front);
      SettlingStep(Run(EMPTY, front), last, c, sid, self, answer);
      if Settled(Run(EMPTY, front).calls[c], sid, self, answer) {
        CacheIsTransparent(front, c, sid, self, answer);
        var k :| 0 <= k <= |front| && AnsweredAt(front, c, sid, self, answer, k);
        assert trace[..k] == front[..k];
        assert AnsweredAt(trace, c, sid, self, answer, k);
      } else {
        assert AnsweredAt(trace, c, sid, self, answer, |front|);
      }
    }
  }

  ghost predicate Transparent(self: int) {
    forall trace, c, sid, answer ::
      c in Run(EMPTY, trace).calls && Settled(Run(EMPTY, trace).calls[c], sid, self, answer)
      ==> exists k :: 0 <= k <= |trace| && AnsweredAt(trace, c, sid, self, answer, k)
  }

  lemma NothingInserted(w: World, e: Event)
    requires Rows(w) == map[] && !e.CommitNew? && !(e.Table? && e.a.Insert?)
    ensures Rows(Step(w, e)) == map[]
  {
  }

  // Without an insert no session comes to be.
  lemma {:induction false} NothingUnlessInserted(trace: seq<Event>)
    requires forall e :: e in trace ==> !e.CommitNew? && !(e.Table? && e.a.Insert?)
    ensures Rows(Run(EMPTY, trace)) == map[]
  {
    if trace != [] {
      NothingUnlessInserted(trace[..|trace| - 1]);
      assert trace[|trace| - 1] in trace;
      NothingInserted(Run(EMPTY, trace[..|trace| - 1]), trace[|trace| - 1]);
    }
  }

  // The run in which a caller with id 0 is told of a session that was rolled back.
  const ROLLED_BACK: seq<Event> :=
    [Table(C.FindNone(0, 7, "t", "hello")), Table(C.TakeSession(0)), Create(0, 0, 0), WriteNew(0), RollBack(0), Ask(1, 0, 1, 0),
     LookUp(1)]

  lemma NextEvent(trace: seq<Event>, k: nat)
    requires k < |trace|
    ensures Run(EMPTY, trace[..k + 1]) == Step(Run(EMPTY, trace[..k]), trace[k])
  {
    assert trace[..k + 1][..k] == trace[..k];
  }

  // The handler has found no session and taken id 1 for a new one.
  lemma RowBuilt()
    ensures Run(EMPTY, ROLLED_BACK[..2])
         == World(C.Chat(Db(map[], [], 1, 2), map[0 := C.Inserting("t", 7, "hello", 1)], map[]), map[], map[])
  {
    var t := ROLLED_BACK;
    assert t[..0] == [];
    NextEvent(t, 0);
    NextEvent(t, 1);
    assert OpenOf(C.INIT.db.sessions, 7) == {};
    assert Run(EMPTY, t[..1]).chat == C.Put(C.INIT, 0, C.Entering("t", 7, "hello"));
  }

  // The create fills the cache and rolls back; no session exists, the entry stays.
  lemma RolledBackCreate()
    ensures Run(EMPTY, ROLLED_BACK[..5])
         == World(C.Chat(Db(map[], [], 1, 2), map[], map[]), map[0 := map[1 := Peer(7, 0)]], map[0 := Ended])
  {
    RowBuilt();
    NextEvent(ROLLED_BACK, 2);
    NextEvent(ROLLED_BACK, 3);
    NextEvent(ROLLED_BACK, 4);
    FilledThenRolledBack(Run(EMPTY, ROLLED_BACK[..2]));
  }

  lemma FilledThenRolledBack(w: World)
    requires w == World(C.Chat(Db(map[], [], 1, 2), map[0 := C.Inserting("t", 7, "hello", 1)], map[]), map[], map[])
    ensures Step(Step(Step(w, Create(0, 0, 0)), WriteNew(0)), RollBack(0))
         == World(C.Chat(Db(map[], [], 1, 2), map[], map[]), map[0 := map[1 := Peer(7, 0)]], map[0 := Ended])
  {
    var made := Step(w, Create(0, 0, 0));
    assert made == World(w.chat, map[], map[0 := Creating(0, 0, 1, 7)]);
    var filled := Step(made, WriteNew(0));
    assert filled == World(w.chat, map[0 := map[1 := Peer(7, 0)]], map[0 := Cached(0, 0, 1, 7)]);
    assert C.Step(w.chat, C.Abort(0)).tasks == map[];
  }

  // Then somebody with id 0 asks, on the same node.
  lemma RolledBackRun()
    ensures var w := Run(EMPTY, ROLLED_BACK); 1 in w.calls && w.calls[1] == Answered(0, 1, 0, Answer(7, VisitorRole))
  {
    RolledBackCreate();
    NextEvent(ROLLED_BACK, 5);
    NextEvent(ROLLED_BACK, 6);
    assert ROLLED_BACK[..7] == ROLLED_BACK;
    AskedAfterRollBack(Run(EMPTY, ROLLED_BACK[..5]));
  }

  lemma AskedAfterRollBack(w: World)
    requires w.caches == map[0 := map[1 := Peer(7, 0)]] && w.calls == map[0 := Ended]
    ensures var w' := Step(Step(w, Ask(1, 0, 1, 0)), LookUp(1));
      1 in w'.calls && w'.calls[1] == Answered(0, 1, 0, Answer(7, VisitorRole))
  {
    assert CacheOf(w, 0)[1] == Peer(7, 0);
  }

  // The guard is exact: the router lets only positive ids through, and id 0 is the one caller
  // for which the cache would show.
  lemma TransparentIffNonZero(self: int)
    ensures Transparent(self) <==> self != 0
  {
    if self != 0 {
      forall trace, c, sid, answer |
        c in Run(EMPTY, trace).calls && Settled(Run(EMPTY, trace).calls[c], sid, self, answer)
        ensures exists k :: 0 <= k <= |trace| && AnsweredAt(trace, c, sid, self, answer, k)
      {
        CacheIsTransparent(trace, c, sid, self, answer);
      }
    } else {
      RolledBackRun();
      var answer := Answer(7, VisitorRole);
      assert Settled(Run(EMPTY, ROLLED_BACK).calls[1], 1, 0, answer);
      forall k | 0 <= k <= |ROLLED_BACK| ensures !AnsweredAt(ROLLED_BACK, 1, 1, 0, answer, k) {
        NothingUnlessInserted(ROLLED_BACK[..k]);
      }
    }
  }

  /* ---- whom the answer names ---- */

  // Visitors and agents are numbered separately, the lookup is told only a number, and whoever is
  // logged in may ask about any session. On one row a visitor is told of the agent exactly when it
  // is the session's own and there is one, an agent of the visitor unless it has the visitor's number
  // and there is an agent.
  lemma RowNamesOtherPartyIff(row: Session, role: Role, self: int)
    requires role != NoRole
    ensures
      if role == VisitorRole then RowAnswer(row, self) == Answer(row.agent, AgentRole) <==> self == row.visitor && row.agent > 0
      else RowAnswer(row, self) == Answer(row.visitor, VisitorRole) <==> !(self == row.visitor && row.agent > 0)
  {
  }

  function RowAt(trace: seq<Event>, sid: int, k: nat): Session
    requires k <= |trace| && sid in Rows(Run(EMPTY, trace[..k]))
  {
    Rows(Run(EMPTY, trace[..k]))[sid]
  }

  // A row read at some moment, told apart from the present one by the agent at most.
  lemma {:induction false} RowsMove(trace: seq<Event>, k: nat)
    requires k <= |trace|
    ensures TableOk(Rows(Run(EMPTY, trace[..k]))) && TableMoved(Rows(Run(EMPTY, trace[..k])), Rows(Run(EMPTY, trace)))
  {
    RunKeepsWorld(trace[..k]);
    ReachableOk(Run(EMPTY, trace[..k]).chat);
    if k == |trace| {
      assert trace[..k] == trace;
    } else {
      var front := trace[..|trace| - 1];
      RowsMove(front, k);
      assert front[..k] == trace[..k];
      RunKeepsWorld(front);
      EventMovesRows(Run(EMPTY, front), trace[|trace| - 1]);
      TableMovedTransitive(Rows(Run(EMPTY, trace[..k])), Rows(Run(EMPTY, front)), Rows(Run(EMPTY, trace)));
    }
  }

  lemma EventMovesRows(w: World, e: Event)
    requires WorldOk(w)
    ensures TableMoved(Rows(w), Rows(Step(w, e)))
  {
    ReachableOk(w.chat);
    if e.Table? { StepKeepsSessions(w.chat, e.a); }
    if e.CommitNew? && e.c in w.calls && w.calls[e.c].Cached? { StepKeepsSessions(w.chat, C.Insert(w.calls[e.c].t)); }
    if e.RollBack? && e.c in w.calls && (w.calls[e.c].Creating? || w.calls[e.c].Cached?) {
      StepKeepsSessions(w.chat, C.Abort(w.calls[e.c].t));
    }
    if e.Close? { StepKeepsSessions(w.chat, C.Close(e.session, e.reason)); }
  }

  // Whatever the cache, the interleaving and the moment: the answer of a call that found the
  // session is, by the row as it is now, the party the caller wanted exactly if the row told so
  // when the answer was taken; and its number is the visitor's exactly if it was so then.
  lemma AnswerIsOtherPartyIff(trace: seq<Event>, c: nat, sid: int, self: int, role: Role, answer: Answer) returns (k: nat)
    requires self != 0 && role != NoRole && answer.role != NoRole
    requires c in Run(EMPTY, trace).calls && Settled(Run(EMPTY, trace).calls[c], sid, self, answer)
    ensures k <= |trace| && sid in Rows(Run(EMPTY, trace[..k])) && sid in Rows(Run(EMPTY, trace))
    ensures AnsweredAt(trace, c, sid, self, answer, k)
    ensures var was, now := RowAt(trace, sid, k), Rows(Run(EMPTY, trace))[sid];
      && (role == VisitorRole ==> (answer == Answer(now.agent, AgentRole) <==> self == was.visitor && was.agent > 0))
      && (role == AgentRole ==>
            (answer == Answer(now.visitor, VisitorRole) <==> !(self == was.visitor && was.agent > 0)))
      && (answer.user == now.visitor <==> !(self == was.visitor && was.agent > 0 && self != was.agent))
  {
    CacheIsTransparent(trace, c, sid, self, answer);
    k :| 0 <= k <= |trace| && AnsweredAt(trace, c, sid, self, answer, k);
    RowsMove(trace, k);
    var then', now := RowAt(trace, sid, k), Rows(Run(EMPTY, trace))[sid];
    assert RowMoved(then', now) && RowOk(then');
  }

  function OnTables(trace: seq<C.Action>): seq<Event> {
    seq(|trace|, i requires 0 <= i < |trace| => Table(trace[i]))
  }

  lemma {:induction false} TablesOnly(trace: seq<C.Action>)
    ensures Run(EMPTY, OnTables(trace)) == World(C.Run(C.INIT, trace), map[], map[])
  {
    if trace != [] {
      TablesOnly(trace[..|trace| - 1]);
      assert OnTables(trace)[..|trace| - 1] == OnTables(trace[..|trace| - 1]);
    }
  }

  // A lookup on a node that has cached nothing.
  lemma AskedAfresh(s: C.Chat, sid: int, self: int)
    requires sid in s.db.sessions
    ensures var w := World(s, map[], map[0 := Missed(0, sid, self)]);
      Step(Step(World(s, map[], map[]), Ask(0, 0, sid, self)), LookUp(0)) == w
  {
    assert Step(World(s, map[], map[]), Ask(0, 0, sid, self)) == World(s, map[], map[0 := Looking(0, sid, self)]);
  }

  lemma AnsweredAfresh(s: C.Chat, sid: int, self: int)
    requires sid in s.db.sessions
    ensures var w := Step(Step(World(s, map[], map[0 := Missed(0, sid, self)]), Fetch(0)), Reply(0));
      w.chat == s && 0 in w.calls && w.calls[0] == Answered(0, sid, self, RowAnswer(s.db.sessions[sid], self))
  {
  }

  // Every answer of a table that can be reached is given in some run.
  lemma AnswerIsGiven(s: C.Chat, sid: int, self: int) returns (trace: seq<Event>)
    requires Reachable(s) && sid in s.db.sessions
    ensures var w, row := Run(EMPTY, trace), s.db.sessions[sid];
      w.chat == s && 0 in w.calls && w.calls[0] == Answered(0, sid, self,
        if self == row.visitor && row.agent > 0 then Answer(row.agent, AgentRole) else Answer(row.visitor, VisitorRole))
  {
    var steps :| s == C.Run(C.INIT, steps);
    TablesOnly(steps);
    trace := After(OnTables(steps), Ask(0, 0, sid, self), LookUp(0));
    AskedAfresh(s, sid, self);
    trace := After(trace, Fetch(0), Reply(0));
    AnsweredAfresh(s, sid, self);
  }

  lemma After(trace: seq<Event>, e: Event, f: Event) returns (longer: seq<Event>)
    ensures Run(EMPTY, longer) == Step(Step(Run(EMPTY, trace), e), f)
  {
    longer := trace + [e, f];
    assert longer[..|trace| + 1] == trace + [e] && (trace + [e])[..|trace|] == trace;
  }

  // Session 1 is visitor 7's and agent 9's. Agent 7 asks for the other party and is told of agent
  // 9; a message of agent 7 would go to a visitor 9.
  lemma AnswerCanGoAstray() returns (trace: seq<Event>)
    ensures var w := Run(EMPTY, trace);
      && 1 in Rows(w) && Rows(w)[1].visitor == 7 && Rows(w)[1].agent == 9 && Rows(w)[1].status == Active
      && 0 in w.calls && w.calls[0] == Answered(0, 1, 7, Answer(9, AgentRole))
  {
    var s := OpenSessions.OneOpen();
    s := Then(s, C.Accept(1, 1, 9));
    trace := AnswerIsGiven(s, 1, 7);
  }
}
