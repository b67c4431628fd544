/**
 The chat handler, over its node's hub and the services: what a visitor's and an agent's message
 do to the tables, to the connections and to the bus, with other handlers in between.
 */
module ChatHandling {
  import opened Tables
  import opened UserKeys
  import opened HubModel
  import opened HubServer
  import HubSystem
  import C = ChatServer
  import ChatSessions
  import ChatTheorems
  import Registry
  import PeerCache
  import Services
  import Stores
  import I = Interference
  import Relay

  // A visitor's message: the session is found or created, the message stored, the agent's unread
  // counter raised.
  function VisitorSteps(t: nat, who: Ident, content: string, clock: int, found: Stores.Lookup, lastOk: bool, counted: bool):
      seq<C.Action> {
    Services.Enters(t, who.tenant, who.user, content, found) + Services.Sends(t, clock, lastOk) + [C.CountUnread(t, counted)]
  }

  predicate OfVisitor(sessions: map<int, Session>, sid: int, visitor: Int64) {
    sid in sessions && sessions[sid].visitor == visitor
  }

  // The message is stored; by now it may have been read.
  ghost predicate InTable(log: seq<Message>, m: Message) {
    exists row :: row in log && row == m.(read := row.read)
  }

  lemma StaysInTable(s: C.Chat, s': C.Chat, t: nat, m: Message)
    requires ChatTheorems.Reachable(s) && I.Interleaved(s, s', t, []) && m in s.db.log
    ensures InTable(s'.db.log, m)
  {
    I.TablesMove(s, s', t, []);
    var i :| 0 <= i < |s.db.log| && s.db.log[i] == m;
    assert s'.db.log[i] in s'.db.log;
  }

  // The agent of the session, 0 while it does not exist.
  function AgentSeen(db: Db, sid: int): Int64 {
    if sid in db.sessions then db.sessions[sid].agent else 0
  }

  class ChatHandler {
    const hub: Hub
    const db: Stores.Database
    const sessions: Services.SessionService
    const messages: Services.MessageService

    constructor (hub: Hub, sessions: Services.SessionService, messages: Services.MessageService)
      requires sessions.db == messages.db
      ensures this.hub == hub && this.sessions == sessions && this.messages == messages && db == sessions.db
    {
      this.hub, this.sessions, this.messages, this.db := hub, sessions, messages, sessions.db;
    }

    ghost predicate Valid()
      reads sessions, messages, db
    {
      sessions.db == db && messages.db == db && sessions.Valid() && messages.Valid()
    }

    method OthersFollow(ghost s: C.Chat, ghost own: seq<C.Action>, ghost t: nat)
      requires Valid() && I.Interleaved(s, db.chat, t, own)
      modifies sessions`peerCache, db
      ensures Valid() && I.Interleaved(s, db.chat, t, own) && I.Interleaved(old(db.chat), db.chat, t, [])
      ensures t in db.chat.tasks <==> t in old(db.chat).tasks
      ensures t in db.chat.tasks ==> db.chat.tasks[t] == old(db.chat).tasks[t]
    {
      sessions.OthersFollow(s, own, t);
    }

    // Stores a message begun earlier; the peer cache stays right meanwhile.
    method Send(ghost t: nat, d: C.Draft, clock: int) returns (r: Option<Message>)
      requires Valid() && Services.Begun(db.chat, t, d)
      modifies sessions`peerCache, db
      ensures Valid()
      ensures r.Some? ==> Services.Done(db.chat, t, d) && db.chat.tasks[t].saw == old(db.chat).tasks[t].saw
      ensures r.Some? ==>
        r.value == Message(r.value.id, d.session, r.value.seqNum, d.from, d.sender, d.content, clock, false)
      ensures r.Some? ==>
        exists lastOk :: (db.reliable ==> lastOk) && I.Interleaved(old(db.chat), db.chat, t, Services.Sends(t, clock, lastOk))
      ensures r.Some? ==> InTable(db.log, r.value)
      ensures r.None? ==> t !in db.chat.tasks && Services.GivenUp(old(db.chat), db.chat, t)
    {
      r := messages.SendMessage(t, d, clock);
      if r.Some? {
        ghost var sent := db.chat;
        ghost var lastOk :| (db.reliable ==> lastOk) && I.Interleaved(old(db.chat), db.chat, t, Services.Sends(t, clock, lastOk));
        Services.CacheStaysOk(old(db.chat), db.chat, t, Services.Sends(t, clock, lastOk), sessions.peerCache);
        OthersFollow(old(db.chat), Services.Sends(t, clock, lastOk), t);
        StaysInTable(sent, db.chat, t, r.value);
      } else {
        GivenUpKeepsCache(old(db.chat), db.chat, t, sessions.peerCache);
      }
    }

    // Raises the counter only when the handler saw an agent; either way the handler is done.
    method CountIfAssigned(ghost t: nat, d: C.Draft, agent: Int64) returns (counted: bool)
      requires Valid() && Services.Done(db.chat, t, d) && d.from == FromVisitor && db.chat.tasks[t].saw == agent
      modifies db
      ensures Valid() && t !in db.chat.tasks && (db.reliable ==> counted)
      ensures I.Interleaved(old(db.chat), db.chat, t, [C.CountUnread(t, counted)]) && db.log == old(db.log)
      ensures agent > 0 ==> ChatSessions.AgentIs(db.sessions, d.session, agent)
      ensures agent > 0 && counted ==> d.session in old(db.sessions) && var row := old(db.sessions)[d.session];
        db.sessions == old(db.sessions)[d.session := row.(unread := row.unread + 1)]
      ensures agent <= 0 || !counted ==> db.sessions == old(db.sessions)
    {
      ghost var s := db.chat;
      Services.TaskKnowsAgent(s, t);
      counted := true;
      if agent > 0 {
        counted := sessions.sessions.IncrementUnread(d.session);
      }
      db.Advance(C.CountUnread(t, counted));
      I.TakesStep(s, C.CountUnread(t, counted), t);
      Services.CacheStaysOk(s, db.chat, t, [C.CountUnread(t, counted)], sessions.peerCache);
    }

    // The session the message goes to, created if need be; the visitor is told of a waiting one.
    method Enter(ghost t: nat, conn: Conn, content: string)
        returns (sid: Option<int>, agent: Int64, ghost found: Stores.Lookup)
      requires Valid() && conn.user > 0 && t !in db.chat.tasks
      modifies sessions`peerCache, db, conn`sent, conn`offered
      ensures Valid() && (db.reliable ==> found != Stores.LookupFailed)
      ensures sid.None? ==> !db.reliable && t !in db.chat.tasks && conn.sent == old(conn.sent)
      ensures sid.Some? ==> agent == AgentSeen(old(db.View()), sid.value)
      ensures sid.Some? ==>
        I.Interleaved(old(db.chat), db.chat, t, Services.Enters(t, conn.tenant, conn.user, content, found))
      ensures sid.Some? ==> OfVisitor(db.sessions, sid.value, conn.user)
      ensures sid.Some? ==> Waits(db.chat, t, C.Draft(sid.value, FromVisitor, conn.user, content), agent)
      ensures sid.Some? ==> conn.sent == old(conn.sent) || conn.sent == old(conn.sent) + [SessionCreated(sid.value)]
      ensures sid.Some? ==>
        var waiting := sid.value !in old(db.sessions) || (old(db.sessions)[sid.value].status == Pending && agent == 0);
        conn.offered == if waiting then old(conn.offered) + [SessionCreated(sid.value)] else old(conn.offered)
    {
      ghost var s := db.chat;
      var entered;
      entered, found := sessions.CreateOrGetSession(t, conn.tenant, conn.user, content);
      if entered.Err? {
        return None, 0, found;
      }
      var (id, row) := entered.value;
      sid, agent := Some(id), row.agent;
      if row.status == Pending && agent == 0 {
        var _ := conn.Send(SessionCreated(id));
      }
      ghost var begun := db.chat;
      OthersFollow(s, Services.Enters(t, conn.tenant, conn.user, content, found), t);
      Services.RowsMoved(begun, db.chat, t, [], id);
    }

    // Everything a visitor's message does to the database, started in state s: the handler took
    // the steps of such a message, and `agent` is the agent of the visitor's session as the
    // handler found it, and that session's agent for good.
    ghost predicate VisitorServed(s: C.Chat, t: nat, who: Ident, content: string, clock: int, saved: Option<Message>,
                                  agent: Int64)
      reads db`chat
    {
      && t !in db.chat.tasks
      && (saved.Some? ==>
            var m := saved.value;
            && m == Message(m.id, m.session, m.seqNum, FromVisitor, who.user, content, clock, false)
            && Visited(s, db.chat, t, who, content, clock, db.reliable)
            && InTable(db.chat.db.log, m) && OfVisitor(db.chat.db.sessions, m.session, who.user)
            && agent == AgentSeen(s.db, m.session)
            && (agent > 0 ==> ChatSessions.AgentIs(db.chat.db.sessions, m.session, agent)))
    }

    method SaveVisitorMessage(ghost t: nat, conn: Conn, content: string, clock: int)
        returns (saved: Option<Message>, agent: Int64)
      requires Valid() && conn.user > 0 && t !in db.chat.tasks
      modifies sessions`peerCache, db, conn`sent, conn`offered
      ensures Valid() && VisitorServed(old(db.chat), t, old(conn.Who()), content, clock, saved, agent)
      ensures conn.sent == old(conn.sent) || exists sid :: conn.sent == old(conn.sent) + [SessionCreated(sid)]
    {
      var sid;
      ghost var found;
      sid, agent, found := Enter(t, conn, content);
      if sid.None? {
        return None, agent;
      }
      ghost var s1 := db.chat;
      var d := C.Draft(sid.value, FromVisitor, conn.user, content);
      saved := Send(t, d, clock);
      if saved.None? {
        return;
      }
      ghost var s2 := db.chat;
      ghost var lastOk :| (db.reliable ==> lastOk) && I.Interleaved(s1, s2, t, Services.Sends(t, clock, lastOk));
      ghost var counted := CountIfAssigned(t, d, agent);
      Services.RowsMoved(s1, s2, t, Services.Sends(t, clock, lastOk), sid.value);
      Services.RowsMoved(s2, db.chat, t, [C.CountUnread(t, counted)], sid.value);
      VisitSteps(old(db.chat), s1, s2, db.chat, t, conn.Who(), content, clock, found, lastOk, counted);
    }

    // Nothing of this touches the tables.
    method AckAndPush(conn: Conn, saved: Option<Message>, to: Int64, role: string, ghost h: HubSystem.Sys)
        returns (acked: bool, ghost got: set<ConnId>)
      requires HubSystem.Reachable(h) && h.hub == hub.View() && HubSystem.KnownRole(role)
      requires Valid() && hub.Valid() && hub.Knows(conn)
      modifies hub.known.Values`sent, hub.known.Values`offered, hub.bus
      ensures Valid() && db.chat == old(db.chat)
      ensures got <= hub.OpenFor(to, role) && (!acked || to <= 0 ==> got == {})
      ensures acked ==> saved.Some? && ChatAck(saved.value.id, saved.value.session, saved.value.seqNum) in conn.sent
      ensures forall c :: c in hub.known && c != conn.id ==>
        hub.known[c].offered == (
          if saved.Some? && acked && to > 0 && Relay.BoundHere(hub, h, c)
            && hub.known[c].user == to && hub.known[c].role == role
            && !hub.known[c].closed && !hub.known[c].socketClosed
          then old(hub.known[c].offered) + [ChatPush(saved.value)] else old(hub.known[c].offered))
        && hub.known[c].sent == (
          if saved.Some? && c in got then old(hub.known[c].sent) + [ChatPush(saved.value)] else old(hub.known[c].sent))
      ensures
        if saved.Some? && acked && to > 0 && got == {} && hub.Elsewhere(to).Some?
        then hub.bus.published == old(hub.bus.published)
          + [(NodeChannel(hub.Elsewhere(to).value),
              BroadcastMsg(hub.nodeID, "", to, role, 0, ChatPush(saved.value)))]
        else hub.bus.published == old(hub.bus.published)
    {
      if saved.None? {
        return false, {};
      }
      acked, got := Deliver(hub, conn, saved.value, to, role);
      OpenIsBound(hub, h, to, role);
    }

    // Nothing of this reaches another connection.
    method SaveAlone(ghost t: nat, conn: Conn, content: string, clock: int) returns (saved: Option<Message>, agent: Int64)
      requires Valid() && hub.Valid() && hub.Knows(conn) && conn.user > 0 && t !in db.chat.tasks
      modifies sessions`peerCache, db, conn`sent, conn`offered
      ensures Valid() && VisitorServed(old(db.chat), t, old(conn.Who()), content, clock, saved, agent)
      ensures hub.View() == old(hub.View())
      ensures forall c :: c in hub.known && c != conn.id ==>
        hub.known[c].sent == old(hub.known[c].sent) && hub.known[c].offered == old(hub.known[c].offered)
    {
      saved, agent := SaveVisitorMessage(t, conn, content, clock);
    }

    // Stored, counted, acknowledged, pushed, in this order: whoever is pushed to is bound as the
    // agent that the session then has for good.
    method HandleVisitorMessage(ghost t: nat, conn: Conn, content: string, clock: int, ghost h: HubSystem.Sys)
        returns (saved: Option<Message>, agent: Int64, acked: bool, ghost got: set<ConnId>)
      requires HubSystem.Reachable(h) && h.hub == hub.View()
      requires Valid() && hub.Valid() && hub.Knows(conn) && conn.user > 0 && t !in db.chat.tasks
      modifies sessions`peerCache, db, hub.known.Values`sent, hub.known.Values`offered, hub.bus
      ensures Valid() && VisitorServed(old(db.chat), t, old(conn.Who()), content, clock, saved, agent)
      ensures saved.Some? ==> var m := saved.value;
        m == Message(m.id, m.session, m.seqNum, FromVisitor, old(conn.user), content, clock, false)
        && m.session in db.sessions && db.sessions[m.session].visitor == m.sender
        && agent == (if m.session in old(db.sessions) then old(db.sessions)[m.session].agent else 0)
        && (agent > 0 ==> db.sessions[m.session].agent == agent)
      ensures acked ==> saved.Some? && ChatAck(saved.value.id, saved.value.session, saved.value.seqNum) in conn.sent
      ensures !acked || agent <= 0 ==> got == {}
      ensures forall c :: c in hub.known && c != conn.id ==>
        hub.known[c].offered == (
          if saved.Some? && acked && agent > 0 && Relay.BoundHere(hub, h, c)
            && hub.known[c].user == agent && hub.known[c].role == "agent"
            && !hub.known[c].closed && !hub.known[c].socketClosed
          then old(hub.known[c].offered) + [ChatPush(saved.value)] else old(hub.known[c].offered))
        && hub.known[c].sent == (
          if saved.Some? && c in got then old(hub.known[c].sent) + [ChatPush(saved.value)] else old(hub.known[c].sent))
      ensures
        if saved.Some? && acked && agent > 0 && got == {} && hub.Elsewhere(agent).Some?
        then hub.bus.published == old(hub.bus.published)
          + [(NodeChannel(hub.Elsewhere(agent).value),
              BroadcastMsg(hub.nodeID, "", agent, "agent", 0, ChatPush(saved.value)))]
        else hub.bus.published == old(hub.bus.published)
    {
      saved, agent := SaveAlone(t, conn, content, clock);
      acked, got := AckAndPush(conn, saved, agent, AGENT, h);
    }

    // Everything an agent's message does to the database, started in state s.
    ghost predicate AgentServed(s: C.Chat, t: nat, d: C.Draft, clock: int, saved: Option<Message>, peer: PeerCache.Answer)
      reads db`chat
    {
      && t !in db.chat.tasks
      && (saved.Some? ==>
            && saved.value ==
                 Message(saved.value.id, d.session, saved.value.seqNum, d.from, d.sender, d.content, clock, false)
            && InTable(db.chat.db.log, saved.value) && Replied(s, db.chat, t, d, clock, peer, db.reliable))
    }

    // The peer is looked up first, so it is the table's answer at a moment before the message.
    method SaveAgentMessage(ghost t: nat, conn: Conn, sid: int, content: string, clock: int)
        returns (saved: Option<Message>, peer: PeerCache.Answer)
      requires Valid() && conn.user > 0 && t !in db.chat.tasks
      modifies sessions`peerCache, db
      ensures Valid() && AgentServed(old(db.chat), t, C.Draft(sid, FromAgent, old(conn.user), content), clock, saved, peer)
    {
      peer := sessions.GetPeerIDs(t, sid, conn.user);
      ghost var asked := db.chat;
      I.OthersSpareTask(old(db.chat), asked, t);
      var d := C.Draft(sid, FromAgent, conn.user, content);
      ghost var moment := WhenAnswered(old(db.chat), asked, t, d, peer, db.reliable);
      Begin(t, d);
      ghost var begun := db.chat;
      saved := Send(t, d, clock);
      if saved.Some? {
        ghost var sent := db.chat;
        ghost var lastOk :| (db.reliable ==> lastOk) && I.Interleaved(begun, sent, t, Services.Sends(t, clock, lastOk));
        Finish(t, d);
        ReplySteps(old(db.chat), moment, asked, begun, sent, db.chat, t, d, clock, lastOk, peer, db.reliable);
      }
    }

    ghost method Begin(t: nat, d: C.Draft)
      requires Valid() && t !in db.chat.tasks && d.from != FromVisitor
      modifies db`chat
      ensures Valid() && Services.Begun(db.chat, t, d) && I.Interleaved(old(db.chat), db.chat, t, [C.BeginSend(t, d)])
    {
      I.TakesStep(db.chat, C.BeginSend(t, d), t);
      db.Advance(C.BeginSend(t, d));
    }

    ghost method Finish(t: nat, d: C.Draft)
      requires Valid() && Services.Done(db.chat, t, d) && d.from != FromVisitor
      modifies db`chat
      ensures Valid() && t !in db.chat.tasks && I.Interleaved(old(db.chat), db.chat, t, [C.CountUnread(t, true)])
    {
      I.TakesStep(db.chat, C.CountUnread(t, true), t);
      db.Advance(C.CountUnread(t, true));
    }

    method SaveAgentAlone(ghost t: nat, conn: Conn, sid: int, content: string, clock: int)
        returns (saved: Option<Message>, peer: PeerCache.Answer)
      requires Valid() && conn.user > 0 && t !in db.chat.tasks
      modifies sessions`peerCache, db
      ensures Valid() && AgentServed(old(db.chat), t, C.Draft(sid, FromAgent, old(conn.user), content), clock, saved, peer)
      ensures hub.View() == old(hub.View())
      ensures forall c :: c in hub.known && c != conn.id ==>
        hub.known[c].sent == old(hub.known[c].sent) && hub.known[c].offered == old(hub.known[c].offered)
    {
      saved, peer := SaveAgentMessage(t, conn, sid, content, clock);
    }

    // An agent's message raises no counter; it is pushed to the number the lookup answered, as a
    // visitor's. PeerCache.AnswerIsOtherPartyIff says when that is the session's visitor.
    method HandleAgentMessage(ghost t: nat, conn: Conn, sid: int, content: string, clock: int, ghost h: HubSystem.Sys)
        returns (saved: Option<Message>, peer: PeerCache.Answer, acked: bool, ghost got: set<ConnId>)
      requires HubSystem.Reachable(h) && h.hub == hub.View()
      requires Valid() && hub.Valid() && hub.Knows(conn) && conn.user > 0 && t !in db.chat.tasks
      modifies sessions`peerCache, db, hub.known.Values`sent, hub.known.Values`offered, hub.bus
      ensures Valid() && AgentServed(old(db.chat), t, C.Draft(sid, FromAgent, old(conn.user), content), clock, saved, peer)
      ensures saved.Some? ==> var m := saved.value;
        m == Message(m.id, sid, m.seqNum, FromAgent, old(conn.user), content, clock, false)
      ensures acked ==> saved.Some? && ChatAck(saved.value.id, saved.value.session, saved.value.seqNum) in conn.sent
      ensures !acked || peer.user <= 0 ==> got == {}
      ensures forall c :: c in hub.known && c != conn.id ==>
        hub.known[c].offered == (
          if saved.Some? && acked && peer.user > 0 && Relay.BoundHere(hub, h, c)
            && hub.known[c].user == peer.user && hub.known[c].role == "visitor"
            && !hub.known[c].closed && !hub.known[c].socketClosed
          then old(hub.known[c].offered) + [ChatPush(saved.value)] else old(hub.known[c].offered))
        && hub.known[c].sent == (
          if saved.Some? && c in got then old(hub.known[c].sent) + [ChatPush(saved.value)] else old(hub.known[c].sent))
      ensures
        if saved.Some? && acked && peer.user > 0 && got == {} && hub.Elsewhere(peer.user).Some?
        then hub.bus.published == old(hub.bus.published)
          + [(NodeChannel(hub.Elsewhere(peer.user).value),
              BroadcastMsg(hub.nodeID, "", peer.user, "visitor", 0, ChatPush(saved.value)))]
        else hub.bus.published == old(hub.bus.published)
    {
      saved, peer := SaveAgentAlone(t, conn, sid, content, clock);
      acked, got := AckAndPush(conn, saved, peer.user, VISITOR, h);
    }
  }

  // The answer is the table's at some moment, and from there the handler took an agent message's
  // steps. Only a failing store answers nobody instead.
  ghost predicate Replied(s: C.Chat, s': C.Chat, t: nat, d: C.Draft, clock: int, peer: PeerCache.Answer, reliable: bool) {
    exists moment, lastOk :: Answered(s, moment, peer, t, d, reliable) && (reliable ==> lastOk) &&
                             I.Interleaved(moment, s', t, Services.Posts(t, d, clock, lastOk))
  }

  ghost predicate Answered(s: C.Chat, moment: C.Chat, peer: PeerCache.Answer, t: nat, d: C.Draft, reliable: bool) {
    && I.Interleaved(s, moment, t, [])
    && (if d.session in moment.db.sessions && (reliable || peer.role != PeerCache.NoRole) then
          var row := moment.db.sessions[d.session];
          peer == if d.sender == row.visitor && row.agent > 0 then PeerCache.Answer(row.agent, PeerCache.AgentRole)
                  else PeerCache.Answer(row.visitor, PeerCache.VisitorRole)
        else peer == PeerCache.Answer(0, PeerCache.NoRole))
  }

  lemma WhenAnswered(s: C.Chat, asked: C.Chat, t: nat, d: C.Draft, peer: PeerCache.Answer, reliable: bool)
      returns (moment: C.Chat)
    requires I.Interleaved(s, asked, t, [])
    requires (!reliable && peer == PeerCache.Answer(0, PeerCache.NoRole)) ||
             Services.AnsweredBetween(s, asked, t, d.session, d.sender, peer)
    ensures Answered(s, moment, peer, t, d, reliable) && I.Interleaved(moment, asked, t, [])
  {
    if Services.AnsweredBetween(s, asked, t, d.session, d.sender, peer) {
      moment :| I.Interleaved(s, moment, t, []) && I.Interleaved(moment, asked, t, [])
        && peer == PeerCache.TableAnswer(moment.db.sessions, d.session, d.sender);
    } else {
      moment := asked;
      I.StandsStill(asked, t);
    }
  }

  lemma ReplySteps(s: C.Chat, moment: C.Chat, asked: C.Chat, begun: C.Chat, sent: C.Chat, end: C.Chat, t: nat, d: C.Draft,
                   clock: int, lastOk: bool, peer: PeerCache.Answer, reliable: bool)
    requires Answered(s, moment, peer, t, d, reliable) && I.Interleaved(moment, asked, t, []) && (reliable ==> lastOk)
    requires I.Interleaved(asked, begun, t, [C.BeginSend(t, d)])
    requires I.Interleaved(begun, sent, t, Services.Sends(t, clock, lastOk))
    requires I.Interleaved(sent, end, t, [C.CountUnread(t, true)])
    ensures Replied(s, end, t, d, clock, peer, reliable)
  {
    var begin, sends := [C.BeginSend(t, d)], Services.Sends(t, clock, lastOk);
    I.Chained(moment, asked, begun, t, [], begin);
    assert [] + begin == begin;
    I.Chained(moment, begun, sent, t, begin, sends);
    I.Chained(moment, sent, end, t, begin + sends, [C.CountUnread(t, true)]);
    assert begin + sends + [C.CountUnread(t, true)] == Services.Posts(t, d, clock, lastOk);
  }

  method Ack(hub: Hub, conn: Conn, m: Message) returns (acked: bool)
    requires hub.Valid() && hub.Knows(conn)
    modifies conn`sent, conn`offered
    ensures hub.Inboxes() == Added(old(hub.Inboxes()), if acked then {conn.id} else {}, ChatAck(m.id, m.session, m.seqNum))
    ensures hub.Offers() == Added(old(hub.Offers()), {conn.id}, ChatAck(m.id, m.session, m.seqNum))
  {
    ghost var before, offers := hub.Inboxes(), hub.Offers();
    acked := conn.Send(ChatAck(m.id, m.session, m.seqNum));
    assert hub.Inboxes() == Added(before, if acked then {conn.id} else {}, ChatAck(m.id, m.session, m.seqNum));
    assert hub.Offers() == Added(offers, {conn.id}, ChatAck(m.id, m.session, m.seqNum));
  }

  // The sender gets the acknowledgement; only then the other party, if there is one, gets the
  // message: on this node's open connections of that user and role, or by way of the one node
  // the registry names.
  method Deliver(hub: Hub, conn: Conn, m: Message, to: Int64, role: string) returns (acked: bool, ghost got: set<ConnId>)
    requires hub.Valid() && hub.Knows(conn)
    modifies hub.known.Values`sent, hub.known.Values`offered, hub.bus
    ensures got <= hub.OpenFor(to, role)
    ensures !acked || to <= 0 ==> got == {}
    ensures forall c :: c in hub.known && c != conn.id ==>
      hub.known[c].offered == if acked && to > 0 && c in hub.OpenFor(to, role)
        then old(hub.known[c].offered) + [ChatPush(m)] else old(hub.known[c].offered)
    ensures forall c :: c in hub.known && c != conn.id ==>
      hub.known[c].sent == if c in got then old(hub.known[c].sent) + [ChatPush(m)] else old(hub.known[c].sent)
    ensures acked ==> ChatAck(m.id, m.session, m.seqNum) in conn.sent
    ensures
      if acked && to > 0 && got == {} && hub.Elsewhere(to).Some?
      then hub.bus.published == old(hub.bus.published)
        + [(NodeChannel(hub.Elsewhere(to).value),
            BroadcastMsg(hub.nodeID, "", to, role, 0, ChatPush(m)))]
      else hub.bus.published == old(hub.bus.published)
  {
    ghost var before, offers := hub.Inboxes(), hub.Offers();
    acked := Ack(hub, conn, m);
    ghost var targets;
    got, targets := Push(hub, m, if acked then to else 0, role);
    AddedBut(before, conn.id, if acked then {conn.id} else {}, ChatAck(m.id, m.session, m.seqNum), got, ChatPush(m));
    AddedBut(offers, conn.id, {conn.id}, ChatAck(m.id, m.session, m.seqNum), targets, ChatPush(m));
    EachBut(hub, conn.id);
    if acked {
      AckedBox(before, conn.id, ChatAck(m.id, m.session, m.seqNum), got, ChatPush(m));
      assert hub.Inboxes()[conn.id] == conn.sent;
    }
  }

  method Push(hub: Hub, m: Message, to: Int64, role: string) returns (ghost got: set<ConnId>, ghost targets: set<ConnId>)
    requires hub.Valid()
    modifies hub.known.Values`sent, hub.known.Values`offered, hub.bus
    ensures targets == if to > 0 then hub.OpenFor(to, role) else {}
    ensures got <= targets
    ensures hub.Inboxes() == Added(old(hub.Inboxes()), got, ChatPush(m))
    ensures hub.Offers() == Added(old(hub.Offers()), targets, ChatPush(m))
    ensures
      if to > 0 && got == {} && hub.Elsewhere(to).Some?
      then hub.bus.published == old(hub.bus.published)
        + [(NodeChannel(hub.Elsewhere(to).value),
            BroadcastMsg(hub.nodeID, "", to, role, 0, ChatPush(m)))]
      else hub.bus.published == old(hub.bus.published)
  {
    got, targets := {}, {};
    AddedToNone(hub.Inboxes(), ChatPush(m));
    AddedToNone(hub.Offers(), ChatPush(m));
    if to > 0 {
      targets := hub.OpenFor(to, role);
      var found;
      found, got := hub.SendToUser(to, role, ChatPush(m));
    }
  }

  lemma AddedBut(boxes: map<ConnId, seq<Payload>>, c: ConnId, acks: set<ConnId>, ack: Payload, got: set<ConnId>, push: Payload)
    requires acks <= {c}
    ensures var after := Added(Added(boxes, acks, ack), got, push);
      forall d :: d in boxes && d != c ==>
        d in after && after[d] == if d in got then boxes[d] + [push] else boxes[d]
  {
  }

  lemma EachBut(hub: Hub, c: ConnId)
    ensures forall d :: d in hub.known && d != c ==>
      d in hub.Offers() && hub.Offers()[d] == hub.known[d].offered
      && d in hub.Inboxes() && hub.Inboxes()[d] == hub.known[d].sent
  {
  }

  lemma OpenIsBound(hub: Hub, h: HubSystem.Sys, user: Int64, role: string)
    requires hub.Valid() && HubSystem.Reachable(h) && h.hub == hub.View() && HubSystem.KnownRole(role)
    ensures forall c :: c in hub.known ==>
      (c in hub.OpenFor(user, role) <==>
       Relay.BoundHere(hub, h, c) && hub.known[c].user == user && hub.known[c].role == role
       && !hub.known[c].closed && !hub.known[c].socketClosed)
  {
    forall c | c in hub.known
      ensures c in hub.OpenFor(user, role) <==>
        Relay.BoundHere(hub, h, c) && hub.known[c].user == user && hub.known[c].role == role
        && !hub.known[c].closed && !hub.known[c].socketClosed
    {
      Relay.IndexIsFields(hub, h, user, role, "", c);
      assert c in hub.connections ==> hub.connections[c] == hub.known[c];
    }
  }

  lemma AckedBox(boxes: map<ConnId, seq<Payload>>, c: ConnId, ack: Payload, got: set<ConnId>, push: Payload)
    requires c in boxes
    ensures ack in Added(Added(boxes, {c}, ack), got, push)[c]
  {
    var acked := Added(boxes, {c}, ack);
    assert acked[c] == boxes[c] + [ack];
    assert Added(acked, got, push)[c] == if c in got then acked[c] + [push] else acked[c];
  }

  ghost predicate Waits(s: C.Chat, t: nat, d: C.Draft, saw: Int64) {
    t in s.tasks && s.tasks[t] == C.Ready(d, saw)
  }

  // The handler of t took the steps of a visitor's message, and nobody refused them a statement.
  ghost predicate Visited(s: C.Chat, s': C.Chat, t: nat, who: Ident, content: string, clock: int, reliable: bool) {
    exists found, lastOk, counted :: (reliable ==> found != Stores.LookupFailed && lastOk && counted) &&
                                     I.Interleaved(s, s', t, VisitorSteps(t, who, content, clock, found, lastOk, counted))
  }

  lemma VisitSteps(s: C.Chat, s1: C.Chat, s2: C.Chat, s3: C.Chat, t: nat, who: Ident, content: string, clock: int,
                   found: Stores.Lookup, lastOk: bool, counted: bool)
    requires I.Interleaved(s, s1, t, Services.Enters(t, who.tenant, who.user, content, found))
    requires I.Interleaved(s1, s2, t, Services.Sends(t, clock, lastOk)) && I.Interleaved(s2, s3, t, [C.CountUnread(t, counted)])
    ensures I.Interleaved(s, s3, t, VisitorSteps(t, who, content, clock, found, lastOk, counted))
  {
    var begin := Services.Enters(t, who.tenant, who.user, content, found);
    I.Chained(s, s1, s2, t, begin, Services.Sends(t, clock, lastOk));
    I.Chained(s, s2, s3, t, begin + Services.Sends(t, clock, lastOk), [C.CountUnread(t, counted)]);
  }

  lemma GivenUpKeepsCache(s: C.Chat, s': C.Chat, t: nat, cache: map<int, PeerCache.Peer>)
    requires ChatTheorems.Reachable(s) && Services.GivenUp(s, s', t) && PeerCache.CacheOk(s.db.sessions, cache)
    ensures PeerCache.CacheOk(s'.db.sessions, cache)
  {
    if I.Interleaved(s, s', t, [C.Abort(t)]) {
      Services.CacheStaysOk(s, s', t, [C.Abort(t)], cache);
    } else {
      Services.CacheStaysOk(s, s', t, [C.ReadMax(t), C.TakeId(t), C.Abort(t)], cache);
    }
  }
}
