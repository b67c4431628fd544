/**
 The hub of one node and its connections, as objects whose fields the source updates in place.
 Every method is proved against HubModel, HubSystem or Registry.
 */
module HubServer {
  import opened Tables
  import opened UserKeys
  import opened HubModel
  import HubSystem
  import Registry

  datatype Payload =
    | Text(data: string)
    | SessionCreated(session: int)
    | ChatAck(id: int, session: int, seqNum: nat)
    | ChatPush(message: Message)
    | OfflinePush(messages: seq<Message>)

  // What is published on the bus, and on which channel.
  datatype Channel = NodeChannel(node: Registry.NodeId) | TenantChannel(tenant: string)

  datatype BroadcastMsg = BroadcastMsg(node: Registry.NodeId, tenant: string, user: Int64, role: string,
                                       exclude: ConnId, data: Payload)

  class Bus {
    var published: seq<(Channel, BroadcastMsg)>

    constructor ()
      ensures published == []
    {
      published := [];
    }

    // To one node; a node does not publish to itself.
    method PublishToNode(self: Registry.NodeId, target: Registry.NodeId, msg: BroadcastMsg)
      modifies this`published
      ensures published == old(published) + (if target == self then [] else [(NodeChannel(target), msg)])
    {
      if target == self {
        return;
      }
      published := published + [(NodeChannel(target), msg)];
    }

    // To every node, the publisher included.
    method PublishToTenant(tenant: string, msg: BroadcastMsg)
      modifies this`published
      ensures published == old(published) + [(TenantChannel(tenant), msg)]
    {
      published := published + [(TenantChannel(tenant), msg)];
    }
  }

  /* ---- one connection ---- */

  class Conn {
    const id: ConnId
    const hub: Hub
    var user: Int64
    var role: string
    var tenant: string
    var closed: bool
    var socketClosed: bool
    var sent: seq<Payload>             // what the socket accepted
    ghost var offered: seq<Payload>    // what Send was called with

    constructor (id: ConnId, hub: Hub)
      ensures this.id == id && this.hub == hub && Who() == ANONYMOUS
      ensures !closed && !socketClosed && sent == [] && offered == []
    {
      this.id, this.hub := id, hub;
      user, role, tenant := 0, "", "";
      closed, socketClosed, sent, offered := false, false, [], [];
    }

    ghost function Who(): Ident
      reads this`user, this`role, this`tenant
    {
      Ident(user, role, tenant)
    }

    predicate IsClosed()
      reads this`closed, this`socketClosed
    {
      closed || socketClosed
    }

    // Refused once closed; otherwise the socket may still refuse.
    method Send(data: Payload) returns (ok: bool)
      modifies this`sent, this`offered
      ensures offered == old(offered) + [data]
      ensures sent == if ok then old(sent) + [data] else old(sent)
      ensures closed || socketClosed ==> !ok
    {
      offered := offered + [data];
      ok := *;
      ok := ok && !closed && !socketClosed;
      if ok { sent := sent + [data]; }
    }

    // Only the first call gets past the flag, and it takes the connection out of the hub.
    method Close()
      requires hub.Valid() && hub.Knows(this)
      modifies this`closed, this`socketClosed, hub`connections, hub`userConns, hub`tenantConns, hub`events
      ensures hub.Valid() && closed
      ensures hub.View() == if old(closed) then old(hub.View()) else Removed(old(hub.View()), id)
    {
      if closed {
        return;
      }
      ghost var before := hub.View();
      closed := true;
      assert hub.View() == before;
      var _ := hub.RemoveConn(id);
      ghost var after := hub.View();
      socketClosed := true;
      assert hub.View() == after;
    }
  }

  lemma NonEmptyIds(ids: set<ConnId>)
    requires ids != {}
    ensures exists id :: id in ids
  {
    assert (forall id :: id !in ids) ==> ids == {};
  }

  lemma NonEmptyKeys(keys: set<string>)
    requires keys != {}
    ensures exists key :: key in keys
  {
    assert (forall key :: key !in keys) ==> keys == {};
  }

  lemma NonEmptyUsers(users: set<Int64>)
    requires users != {}
    ensures exists user :: user in users
  {
    assert (forall user :: user !in users) ==> users == {};
  }

  lemma OpenedParts(h: HubState, h': HubState, id: ConnId)
    requires h'.live == h.live + {id} && h'.who == h.who[id := ANONYMOUS]
    requires h'.users == h.users && h'.tenants == h.tenants && h'.events == h.events
    ensures h' == Opened(h, id)
  {
  }

  lemma BoundParts(h: HubState, h': HubState, id: ConnId, user: Int64, role: string, tenant: string)
    requires Live(h, id) && h.who[id].tenant == tenant && h'.live == h.live && h'.who == h.who
    requires h'.users == Join(h.users, UserKey(user, role), id)
    requires h'.tenants == if tenant != "" then Join(h.tenants, tenant, id) else h.tenants
    requires h'.events == h.events + Binding(h.users, UserKey(user, role)) + multiset{RegisterDue(user)}
    ensures h' == Bound(h, id, user, role)
  {
  }

  lemma RemovedParts(h: HubState, h': HubState, id: ConnId, who: Ident)
    requires Live(h, id) && h.who[id] == who
    requires h'.live == h.live - {id} && h'.who == h.who
    requires h'.users == if who.user > 0 then Leave(h.users, KeyOf(who), id) else h.users
    requires h'.tenants == if who.tenant != "" then Leave(h.tenants, who.tenant, id) else h.tenants
    requires h'.events == if Empties(h, id) then h.events + Emptying(who) else h.events
    ensures h' == Removed(h, id)
  {
  }

  /* ---- the hub ---- */

  class Hub {
    var connections: map<ConnId, Conn>
    var userConns: Index
    var tenantConns: Index
    var events: multiset<Event>
    ghost var known: map<ConnId, Conn>      // every connection ever opened here
    const nodeID: Registry.NodeId
    const distributor: Registry.Distributor?
    const bus: Bus

    ghost predicate Valid()
      reads this`connections, this`known
    {
      && (forall c :: c in connections ==> c in known && connections[c] == known[c])
      && (forall c :: c in known ==> known[c].id == c && known[c].hub == this)
    }

    ghost predicate Wired() {
      distributor != null ==> distributor.nodeID == nodeID
    }

    ghost predicate Knows(conn: Conn)
      reads this`known
    {
      conn.id in known && known[conn.id] == conn
    }

    // The identities, which live on the connections and outlast their removal.
    ghost function Idents(): (who: map<ConnId, Ident>)
      reads this`known, known.Values`user, known.Values`role, known.Values`tenant
      ensures who.Keys == known.Keys && forall c :: c in known ==> who[c] == known[c].Who()
    {
      map c | c in known :: known[c].Who()
    }

    // What each connection's socket accepted, and what Send was called with.
    ghost function Inboxes(): map<ConnId, seq<Payload>>
      reads this`known, known.Values`sent
    {
      map c | c in known :: known[c].sent
    }

    ghost function Offers(): map<ConnId, seq<Payload>>
      reads this`known, known.Values`offered
    {
      map c | c in known :: known[c].offered
    }

    ghost function View(): HubState
      reads this, known.Values`user, known.Values`role, known.Values`tenant
    {
      HubState(connections.Keys, Idents(), userConns, tenantConns, events)
    }

    constructor (nodeID: Registry.NodeId, distributor: Registry.Distributor?, bus: Bus)
      requires distributor != null ==> distributor.nodeID == nodeID
      ensures this.nodeID == nodeID && this.distributor == distributor && this.bus == bus
      ensures Valid() && Wired() && View() == NEW_HUB && known == map[]
    {
      this.nodeID, this.distributor, this.bus := nodeID, distributor, bus;
      connections, userConns, tenantConns, events, known := map[], map[], map[], multiset{}, map[];
    }

    // Other goroutines run any steps of this node's machine but those of c's auth handler. The
    // body runs none; callers know no more than the contract.
    method OthersRun(ghost s: HubSystem.Sys, ghost c: ConnId) returns (ghost s': HubSystem.Sys)
      requires Valid() && s.hub == View()
      modifies this`connections, this`known, this`userConns, this`tenantConns, this`events
      modifies known.Values`user, known.Values`role, known.Values`tenant
      ensures Valid() && s'.hub == View() && HubSystem.Interleaved(s, s', c, [])
      ensures forall d :: d in old(known) ==> d in known && known[d] == old(known)[d]
      ensures fresh(known.Values - old(known.Values))
    {
      s' := s;
      assert s == HubSystem.Run(s, []) && HubSystem.Own([], c) == [];
    }

    method HandleOpen(id: ConnId) returns (conn: Conn)
      requires Valid() && id !in known
      modifies this`connections, this`known
      ensures Valid() && Knows(conn) && fresh(conn) && conn.id == id
      ensures View() == Opened(old(View()), id)
      ensures connections == old(connections)[id := conn] && known == old(known)[id := conn]
      ensures conn.user == 0 && conn.role == "" && conn.tenant == "" && !conn.closed && conn.sent == []
    {
      conn := new Conn(id, this);
      Track(conn);
    }

    method Track(conn: Conn)
      requires Valid() && conn.id !in known && conn.hub == this && conn.Who() == ANONYMOUS
      modifies this`connections, this`known
      ensures Valid() && Knows(conn) && View() == Opened(old(View()), conn.id)
      ensures connections == old(connections)[conn.id := conn] && known == old(known)[conn.id := conn]
    {
      ghost var h := View();
      Remember(conn);
      connections := connections[conn.id := conn];
      OpenedParts(h, View(), conn.id);
    }

    ghost method Remember(conn: Conn)
      requires Valid() && conn.id !in known && conn.hub == this && conn.Who() == ANONYMOUS
      modifies this`known
      ensures Valid() && Knows(conn) && Idents() == old(Idents())[conn.id := ANONYMOUS]
      ensures known == old(known)[conn.id := conn]
    {
      ghost var who := Idents();
      known := known[conn.id := conn];
      assert forall c :: c in who ==> Idents()[c] == who[c];
    }

    // The user half of a removal: the set that loses its last connection goes, and for an agent
    // the offline path starts.
    method LeaveUsers(who: Ident, id: ConnId)
      modifies this`userConns, this`events
      ensures userConns == Leave(old(userConns), KeyOf(who), id)
      ensures events == if KeyOf(who) in old(userConns) && old(userConns)[KeyOf(who)] - {id} == {}
        then old(events) + Emptying(who) else old(events)
    {
      var key := UserKey(who.user, who.role);
      if key in userConns {
        var conns := userConns[key] - {id};
        if conns == {} {
          userConns := userConns - {key};
          events := events + multiset{Emptied(key)} + multiset{UnregisterDue(who.user)};
          if who.role == AGENT {
            events := events + multiset{AgentOffline(who.user)};
          }
        } else {
          userConns := userConns[key := conns];
        }
      }
    }

    method LeaveTenant(tenant: string, id: ConnId)
      modifies this`tenantConns
      ensures tenantConns == Leave(old(tenantConns), tenant, id)
    {
      if tenant in tenantConns {
        var conns := tenantConns[tenant] - {id};
        if conns == {} {
          tenantConns := tenantConns - {tenant};
        } else {
          tenantConns := tenantConns[tenant := conns];
        }
      }
    }

    method LeaveBoth(who: Ident, id: ConnId)
      modifies this`userConns, this`tenantConns, this`events
      ensures userConns == if who.user > 0 then Leave(old(userConns), KeyOf(who), id) else old(userConns)
      ensures tenantConns == if who.tenant != "" then Leave(old(tenantConns), who.tenant, id) else old(tenantConns)
      ensures events == if who.user > 0 && KeyOf(who) in old(userConns) && old(userConns)[KeyOf(who)] - {id} == {}
        then old(events) + Emptying(who) else old(events)
    {
      if who.user > 0 {
        LeaveUsers(who, id);
      }
      if who.tenant != "" {
        LeaveTenant(who.tenant, id);
      }
    }

    // Called by Conn.Close and by HandleClose, in either order; the second finds nothing.
    method RemoveConn(id: ConnId) returns (conn: Conn?)
      requires Valid()
      modifies this`connections, this`userConns, this`tenantConns, this`events
      ensures Valid() && View() == Removed(old(View()), id) && connections == old(connections) - {id}
      ensures conn == if id in old(connections) then old(connections)[id] else null
    {
      if id !in connections {
        return null;
      }
      conn := connections[id];
      ghost var h := View();
      var who := Ident(conn.user, conn.role, conn.tenant);
      assert h.who[id] == who;
      LeaveBoth(who, id);
      connections := connections - {id};
      RemovedParts(h, View(), id, who);
    }

    method HandleClose(id: ConnId)
      requires Valid()
      modifies this`connections, this`userConns, this`tenantConns, this`events
      ensures Valid() && View() == Removed(old(View()), id)
    {
      var _ := RemoveConn(id);
    }

    method JoinUsers(key: string, id: ConnId)
      modifies this`userConns, this`events
      ensures userConns == Join(old(userConns), key, id)
      ensures events == old(events) + Binding(old(userConns), key)
    {
      if key !in userConns {
        userConns := userConns[key := {}];
        events := events + multiset{Filled(key)};
      }
      userConns := userConns[key := userConns[key] + {id}];
    }

    method JoinTenant(tenant: string, id: ConnId)
      modifies this`tenantConns
      ensures tenantConns == Join(old(tenantConns), tenant, id)
    {
      if tenant !in tenantConns {
        tenantConns := tenantConns[tenant := {}];
      }
      tenantConns := tenantConns[tenant := tenantConns[tenant] + {id}];
    }

    // A connection removed meanwhile is not indexed.
    method BindUser(user: Int64, role: string, conn: Conn)
      requires Valid() && Knows(conn)
      modifies this`userConns, this`tenantConns, this`events
      ensures Valid() && View() == Bound(old(View()), conn.id, user, role)
      ensures conn.id in connections ==>
        UserKey(user, role) in userConns && conn.id in userConns[UserKey(user, role)]
        && (conn.tenant != "" ==> conn.tenant in tenantConns && conn.id in tenantConns[conn.tenant])
      ensures events[RegisterDue(user)] == old(events)[RegisterDue(user)] + (if conn.id in connections then 1 else 0)
    {
      var id := conn.id;
      if id !in connections {
        return;
      }
      ghost var h := View();
      assert h.who[id] == conn.Who();
      JoinUsers(UserKey(user, role), id);
      if conn.tenant != "" {
        JoinTenant(conn.tenant, id);
      }
      events := events + multiset{RegisterDue(user)};
      BoundParts(h, View(), id, user, role, conn.tenant);
    }

    // Offers the data once to each of the connections.
    method SendAll(ids: set<ConnId>, data: Payload)
      requires Valid() && ids <= connections.Keys
      modifies known.Values`sent, known.Values`offered
      ensures Offers() == Added(old(Offers()), ids, data)
    {
      ghost var before := Offers();
      AddedToNone(before, data);
      var todo := ids;
      ghost var done: set<ConnId> := {};
      while todo != {}
        invariant done !! todo && done + todo == ids
        invariant Offers() == Added(before, done, data)
        decreases |todo|
      {
        NonEmptyIds(todo);
        var id: ConnId :| id in todo;
        Offer(id, data);
        AddedOneMore(before, done, id, data);
        todo := todo - {id};
        done := done + {id};
      }
    }

    lemma EachOffered(before: map<ConnId, seq<Payload>>, ids: set<ConnId>, data: Payload)
      requires Offers() == Added(before, ids, data)
      ensures forall c :: c in known ==>
        c in before && known[c].offered == if c in ids then before[c] + [data] else before[c]
    {
      forall c | c in known
        ensures c in before && known[c].offered == if c in ids then before[c] + [data] else before[c]
      {
        assert c in Offers() && Offers()[c] == known[c].offered;
      }
    }

    lemma EachSent(before: map<ConnId, seq<Payload>>, ids: set<ConnId>, data: Payload)
      requires Inboxes() == Added(before, ids, data)
      ensures forall c :: c in known ==>
        c in before && known[c].sent == if c in ids then before[c] + [data] else before[c]
    {
      forall c | c in known
        ensures c in before && known[c].sent == if c in ids then before[c] + [data] else before[c]
      {
        assert c in Inboxes() && Inboxes()[c] == known[c].sent;
      }
    }

    method Offer(id: ConnId, data: Payload)
      requires Valid() && id in connections
      modifies known.Values`sent, known.Values`offered
      ensures Offers() == Added(old(Offers()), {id}, data)
    {
      ghost var before := Offers();
      var _ := connections[id].Send(data);
      assert Offers() == Added(before, {id}, data);
    }

    // The tenant's connections but the excluded one, then the other nodes.
    method BroadcastToTenantExcept(tenant: string, data: Payload, exclude: ConnId)
      requires Valid()
      modifies known.Values`sent, known.Values`offered, bus
      ensures var targets := (Found(tenantConns, tenant) - {exclude}) * connections.Keys;
        Offers() == Added(old(Offers()), targets, data)
      ensures forall c :: c in known ==>
        known[c].offered == if c in connections && tenant in tenantConns && c in tenantConns[tenant] && c != exclude
          then old(known[c].offered) + [data] else old(known[c].offered)
      ensures bus.published == old(bus.published) + (if distributor == null then []
        else [(TenantChannel(tenant), BroadcastMsg(nodeID, tenant, 0, "", exclude, data))])
    {
      var targets := (Found(tenantConns, tenant) - {exclude}) * connections.Keys;
      ghost var before := Offers();
      SendAll(targets, data);
      EachOffered(before, targets, data);
      if distributor != null {
        bus.PublishToTenant(tenant, BroadcastMsg(nodeID, tenant, 0, "", exclude, data));
      }
    }

    // A broadcast from the bus: this node's own is ignored.
    method HandleRemoteTenantMessage(msg: BroadcastMsg)
      requires Valid()
      modifies known.Values`sent, known.Values`offered
      ensures var found := (Found(tenantConns, msg.tenant) - {msg.exclude}) * connections.Keys;
        var targets := if msg.node == nodeID then {} else found;
        Offers() == Added(old(Offers()), targets, msg.data)
      ensures forall c :: c in known ==>
        known[c].offered ==
          if msg.node != nodeID && c in connections && msg.tenant in tenantConns && c in tenantConns[msg.tenant]
            && c != msg.exclude
          then old(known[c].offered) + [msg.data] else old(known[c].offered)
    {
      ghost var before := Offers();
      AddedToNone(Offers(), msg.data);
      if msg.node == nodeID {
        return;
      }
      SendAll((Found(tenantConns, msg.tenant) - {msg.exclude}) * connections.Keys, msg.data);
      EachOffered(before, (Found(tenantConns, msg.tenant) - {msg.exclude}) * connections.Keys, msg.data);
    }

    // A user message from the bus, for this node's connections of that user and role.
    method HandleRemoteNodeMessage(msg: BroadcastMsg)
      requires Valid()
      modifies known.Values`sent, known.Values`offered
      ensures var targets := if msg.user > 0 && msg.role != ""
          then Found(userConns, UserKey(msg.user, msg.role)) * connections.Keys else {};
        Offers() == Added(old(Offers()), targets, msg.data)
      ensures forall c :: c in known ==>
        known[c].offered ==
          if msg.user > 0 && msg.role != "" && c in connections
            && UserKey(msg.user, msg.role) in userConns && c in userConns[UserKey(msg.user, msg.role)]
          then old(known[c].offered) + [msg.data] else old(known[c].offered)
    {
      ghost var before := Offers();
      AddedToNone(Offers(), msg.data);
      if msg.user > 0 && msg.role != "" {
        SendAll(Found(userConns, UserKey(msg.user, msg.role)) * connections.Keys, msg.data);
        EachOffered(before, Found(userConns, UserKey(msg.user, msg.role)) * connections.Keys, msg.data);
      }
    }

    // The other node, if any, whose unexpired entry the registry holds for the user.
    ghost function Elsewhere(user: Int64): Option<Registry.NodeId>
      reads if distributor == null then {} else {distributor.redis}
    {
      if distributor != null && user in distributor.redis.leases
        && distributor.redis.now < distributor.redis.leases[user].deadline && distributor.redis.leases[user].node != nodeID
      then Some(distributor.redis.leases[user].node) else None
    }

    predicate IsOpen(id: ConnId)
      reads this`connections, connections.Values`closed, connections.Values`socketClosed
    {
      id in connections && !connections[id].IsClosed()
    }

    ghost function OpenOnes(ids: set<ConnId>): set<ConnId>
      reads this`connections, connections.Values`closed, connections.Values`socketClosed
    {
      set c | c in ids && IsOpen(c)
    }

    // Whom a user message is offered to here.
    ghost function OpenFor(user: Int64, role: string): set<ConnId>
      reads this`userConns, this`connections, connections.Values`closed, connections.Values`socketClosed
    {
      OpenOnes(Found(userConns, UserKey(user, role)))
    }

    // Local connections first: each open one is offered the data once. Only if none accepts it is
    // one packet published to the node the registry names, unless that is this node.
    method SendToUser(user: Int64, role: string, data: Payload) returns (found: bool, ghost got: set<ConnId>)
      requires Valid()
      modifies known.Values`sent, known.Values`offered, bus
      ensures var open := old(OpenFor(user, role));
        got <= open && Offers() == Added(old(Offers()), open, data) && Inboxes() == Added(old(Inboxes()), got, data)
      ensures found <==> got != {} || (distributor != null && user in distributor.redis.leases
                                      && distributor.redis.now < distributor.redis.leases[user].deadline)
      ensures forall c :: c in known ==>
        known[c].offered ==
          if UserKey(user, role) in userConns && c in userConns[UserKey(user, role)]
            && c in connections && !connections[c].closed && !connections[c].socketClosed
          then old(known[c].offered) + [data] else old(known[c].offered)
      ensures forall c :: c in known ==>
        known[c].sent == if c in got then old(known[c].sent) + [data] else old(known[c].sent)
      ensures if got == {} && distributor != null && user in distributor.redis.leases
           && distributor.redis.now < distributor.redis.leases[user].deadline && distributor.redis.leases[user].node != nodeID
        then bus.published == old(bus.published)
          + [(NodeChannel(distributor.redis.leases[user].node), BroadcastMsg(nodeID, "", user, role, 0, data))]
        else bus.published == old(bus.published)
    {
      var sent;
      sent, got := SendHere(user, role, data);
      if sent {
        return true, got;
      }
      if distributor != null {
        var owner := distributor.GetUserNode(user);
        if owner == None {
          return false, got;
        }
        bus.PublishToNode(nodeID, owner.value, BroadcastMsg(nodeID, "", user, role, 0, data));
        return true, got;
      }
      return false, got;
    }

    method SendHere(user: Int64, role: string, data: Payload) returns (sent: bool, ghost got: set<ConnId>)
      requires Valid()
      modifies known.Values`sent, known.Values`offered
      ensures got <= old(OpenFor(user, role)) && sent == (got != {})
      ensures Offers() == Added(old(Offers()), old(OpenFor(user, role)), data) && Inboxes() == Added(old(Inboxes()), got, data)
      ensures forall c :: c in known ==>
        known[c].offered ==
          if UserKey(user, role) in userConns && c in userConns[UserKey(user, role)]
            && c in connections && !connections[c].closed && !connections[c].socketClosed
          then old(known[c].offered) + [data] else old(known[c].offered)
      ensures forall c :: c in known ==>
        known[c].sent == if c in got then old(known[c].sent) + [data] else old(known[c].sent)
    {
      ghost var offers, before, open := Offers(), Inboxes(), OpenFor(user, role);
      sent, got := SendLocal(Found(userConns, UserKey(user, role)), data);
      EachOffered(offers, open, data);
      EachSent(before, got, data);
    }

    method SendLocal(ids: set<ConnId>, data: Payload) returns (sent: bool, ghost got: set<ConnId>)
      requires Valid()
      modifies known.Values`sent, known.Values`offered
      ensures got <= old(OpenOnes(ids)) && sent == (got != {})
      ensures Offers() == Added(old(Offers()), old(OpenOnes(ids)), data)
      ensures Inboxes() == Added(old(Inboxes()), got, data)
    {
      sent, got := false, {};
      ghost var offers, before, open := Offers(), Inboxes(), OpenOnes(ids);
      var todo := ids;
      NothingServed(data, ids);
      while todo != {}
        invariant todo <= ids && sent == (got != {})
        invariant Served(data, ids, open, todo, got, offers, before)
        decreases |todo|
      {
        NonEmptyIds(todo);
        var id: ConnId :| id in todo;
        var ok;
        ok, got := SendNext(id, data, ids, open, todo, got, offers, before);
        sent := sent || ok;
        todo := todo - {id};
      }
      assert open - todo == open;
    }

    // So far the open ones among those no longer to do have been offered the data, and `got` took it.
    ghost predicate Served(data: Payload, ids: set<ConnId>, open: set<ConnId>, todo: set<ConnId>, got: set<ConnId>,
                           offers: map<ConnId, seq<Payload>>, before: map<ConnId, seq<Payload>>)
      reads this`connections, this`known, connections.Values`closed, connections.Values`socketClosed
      reads known.Values`offered, known.Values`sent
    {
      && open == OpenOnes(ids) && got <= open - todo
      && Offers() == Added(offers, open - todo, data) && Inboxes() == Added(before, got, data)
    }

    lemma NothingServed(data: Payload, ids: set<ConnId>)
      ensures Served(data, ids, OpenOnes(ids), ids, {}, Offers(), Inboxes())
    {
      AddedToNone(Inboxes(), data);
      AddedToNone(Offers(), data);
      assert OpenOnes(ids) - ids == {};
    }

    method SendNext(id: ConnId, data: Payload, ghost ids: set<ConnId>, ghost open: set<ConnId>, ghost todo: set<ConnId>,
                    ghost got: set<ConnId>, ghost offers: map<ConnId, seq<Payload>>, ghost before: map<ConnId, seq<Payload>>)
        returns (ok: bool, ghost more: set<ConnId>)
      requires Valid() && id in todo && todo <= ids && Served(data, ids, open, todo, got, offers, before)
      modifies known.Values`sent, known.Values`offered
      ensures more == if ok then got + {id} else got
      ensures Served(data, ids, open, todo - {id}, more, offers, before)
    {
      assert IsOpen(id) == (id in open);
      ok := TrySend(id, data);
      NextOffer(offers, open, todo, id, data);
      more := if ok then got + {id} else got;
      if ok { AddedOneMore(before, got, id, data); }
    }

    method TrySend(id: ConnId, data: Payload) returns (ok: bool)
      requires Valid()
      modifies known.Values`sent, known.Values`offered
      ensures ok ==> old(IsOpen(id))
      ensures Offers() == if old(IsOpen(id)) then Added(old(Offers()), {id}, data) else old(Offers())
      ensures Inboxes() == if ok then Added(old(Inboxes()), {id}, data) else old(Inboxes())
    {
      ok := false;
      if id in connections && !connections[id].IsClosed() {
        ghost var offers, before := Offers(), Inboxes();
        ok := connections[id].Send(data);
        assert Offers() == Added(offers, {id}, data);
        assert Inboxes() == if ok then Added(before, {id}, data) else before;
      }
    }

    // Closes every connection, gives up every user bound here, and starts over with empty maps.
    method Shutdown()
      requires Valid() && Wired()
      modifies this`connections, this`userConns, this`tenantConns, this`events
      modifies connections.Values`closed, connections.Values`socketClosed
      modifies if distributor == null then {} else {distributor.redis}
      ensures Valid() && connections == map[] && userConns == map[] && tenantConns == map[]
      ensures forall c :: c in old(connections) ==> old(connections)[c].closed
      ensures distributor != null ==> forall user :: user in SeenIds(old(userConns)) ==>
        Registry.Owner(distributor.redis.View(), user) != Some(nodeID)
    {
      var seen := CollectUsers();
      CloseAll();
      if distributor != null {
        GiveUp(seen);
      }
      Forget();
    }

    method Forget()
      modifies this`connections, this`userConns, this`tenantConns, this`events
      ensures connections == map[] && userConns == map[] && tenantConns == map[]
      ensures View() == Forgotten(old(View()))
    {
      ghost var h := View();
      events := events + Drops(userConns);
      Clear();
      assert View().who == h.who;
    }

    method Clear()
      modifies this`connections, this`userConns, this`tenantConns
      ensures connections == map[] && userConns == map[] && tenantConns == map[]
    {
      connections, userConns, tenantConns := map[], map[], map[];
    }

    method CloseAll()
      requires Valid()
      modifies this`connections, this`userConns, this`tenantConns, this`events
      modifies connections.Values`closed, connections.Values`socketClosed
      ensures Valid() && forall c :: c in old(connections) ==> old(connections)[c].closed
    {
      var conns := connections;
      var todo := conns.Keys;
      assert forall c :: c in conns ==> Knows(conns[c]) && conns[c].hub == this;
      while todo != {}
        invariant todo <= conns.Keys && Valid()
        invariant forall c :: c in conns && c !in todo ==> conns[c].closed
        decreases |todo|
      {
        NonEmptyIds(todo);
        var id: ConnId :| id in todo;
        todo := todo - {id};
        conns[id].Close();
      }
    }

    method GiveUp(users: set<Int64>)
      requires Wired() && distributor != null
      modifies distributor.redis`leases
      ensures forall user :: user in users ==> Registry.Owner(distributor.redis.View(), user) != Some(nodeID)
    {
      var todo := users;
      while todo != {}
        invariant todo <= users
        invariant forall user :: user in users && user !in todo ==>
          Registry.Owner(distributor.redis.View(), user) != Some(nodeID)
        decreases |todo|
      {
        NonEmptyUsers(todo);
        var user: Int64 :| user in todo;
        todo := todo - {user};
        distributor.UnregisterUser(user);
      }
    }

    // Renews the registration of every user bound here, in whichever role; alone, it does nothing.
    method RefreshUserTTL() returns (ghost users: seq<Int64>)
      requires distributor != null ==> distributor.redis.ttl > 0
      modifies if distributor == null then {} else {distributor.redis}
      ensures distributor != null ==> Lists(users, SeenIds(userConns))
      ensures distributor != null ==>
        distributor.redis.View() == Registry.AllRefreshed(old(distributor.redis.View()), users)
      ensures distributor != null ==> forall user :: user in distributor.redis.leases ==>
        user in old(distributor.redis.leases) && var lease := old(distributor.redis.leases)[user];
          distributor.redis.leases[user] == if user in users && distributor.redis.now < lease.deadline
            then Registry.Lease(lease.node, distributor.redis.now + distributor.redis.ttl) else lease
    {
      if distributor == null {
        return [];
      }
      var seen := CollectUsers();
      var all := ListUsers(seen);
      distributor.RefreshUsers(all);
      users := all;
    }

    method ListUsers(seen: set<Int64>) returns (users: seq<Int64>)
      ensures Lists(users, seen)
    {
      users := [];
      var rest := seen;
      while rest != {}
        invariant rest <= seen && Lists(users, seen - rest)
        decreases |rest|
      {
        NonEmptyUsers(rest);
        var user: Int64 :| user in rest;
        users := users + [user];
        rest := rest - {user};
      }
      assert seen - rest == seen;
    }

    method CollectUsers() returns (seen: set<Int64>)
      ensures seen == SeenIds(userConns)
    {
      seen := {};
      var keys := userConns.Keys;
      while keys != {}
        invariant keys <= userConns.Keys
        invariant forall user :: user in seen <==> exists key :: key in userConns && key !in keys && Parsed(key).1 == user > 0
        decreases |keys|
      {
        NonEmptyKeys(keys);
        var key: string :| key in keys;
        var _, user := ParseUserKey(key);
        keys := keys - {key};
        if user > 0 {
          seen := seen + {user};
        }
      }
    }
  }

  // Each of the connections gets the data once more.
  function Added(boxes: map<ConnId, seq<Payload>>, ids: set<ConnId>, data: Payload): map<ConnId, seq<Payload>> {
    map c | c in boxes :: if c in ids then boxes[c] + [data] else boxes[c]
  }

  lemma AddedToNone(boxes: map<ConnId, seq<Payload>>, data: Payload)
    ensures Added(boxes, {}, data) == boxes
  {
  }

  // One step through the connections, of which only the open ones are offered the data.
  lemma NextOffer(boxes: map<ConnId, seq<Payload>>, open: set<ConnId>, todo: set<ConnId>, id: ConnId, data: Payload)
    requires id in todo
    ensures var sofar := Added(boxes, open - todo, data);
      Added(boxes, open - (todo - {id}), data) == if id in open then Added(sofar, {id}, data) else sofar
  {
    if id in open {
      AddedOneMore(boxes, open - todo, id, data);
      assert open - (todo - {id}) == open - todo + {id};
    } else {
      assert open - (todo - {id}) == open - todo;
    }
  }

  lemma AddedOneMore(boxes: map<ConnId, seq<Payload>>, ids: set<ConnId>, id: ConnId, data: Payload)
    requires id !in ids
    ensures Added(Added(boxes, ids, data), {id}, data) == Added(boxes, ids + {id}, data)
  {
  }

  // The positive ids among the keys.
  function SeenIds(index: Index): set<Int64> {
    set key | key in index && Parsed(key).1 > 0 :: Parsed(key).1
  }

  // Each member of the set once, in some order.
  ghost predicate Lists(users: seq<Int64>, all: set<Int64>) {
    && (forall user :: user in users <==> user in all)
    && (forall i, j :: 0 <= i < j < |users| ==> users[i] != users[j])
  }

  // Over any run of the hub the ids the refresh collects are exactly the users with a bound
  // connection, in either role.
  lemma RefreshCoversBoundUsers(s: HubSystem.Sys, user: Int64)
    requires HubSystem.Reachable(s)
    ensures user in SeenIds(s.hub.users) <==> exists c :: HubSystem.Serving(s, c) && s.hub.who[c].user == user
  {
    if user in SeenIds(s.hub.users) {
      var c := SeenIsBound(s, user);
    }
    forall c | HubSystem.Serving(s, c) && s.hub.who[c].user == user ensures user in SeenIds(s.hub.users) {
      BoundIsSeen(s, c);
    }
  }

  lemma BoundIsSeen(s: HubSystem.Sys, c: ConnId)
    requires HubSystem.Reachable(s) && HubSystem.Serving(s, c)
    ensures s.hub.who[c].user in SeenIds(s.hub.users)
  {
    var key := KeyOf(s.hub.who[c]);
    HubSystem.MapsAgree(s, c, key, "");
    KeyOfServing(s, c);
    assert key in s.hub.users;
  }

  // A bound connection's key parses back to its user.
  lemma KeyOfServing(s: HubSystem.Sys, c: ConnId)
    requires HubSystem.Reachable(s) && HubSystem.Serving(s, c)
    ensures Parsed(KeyOf(s.hub.who[c])).1 == s.hub.who[c].user > 0
  {
    HubSystem.ServingIsNamed(s, c);
    ParseUndoesKeyIff(s.hub.who[c].user, s.hub.who[c].role);
  }

  lemma SeenIsBound(s: HubSystem.Sys, user: Int64) returns (c: ConnId)
    requires HubSystem.Reachable(s) && user in SeenIds(s.hub.users)
    ensures HubSystem.Serving(s, c) && s.hub.who[c].user == user
  {
    var key :| key in s.hub.users && Parsed(key).1 > 0 && Parsed(key).1 == user;
    HubSystem.MapsAgree(s, 0, key, "");
    NonEmptyIds(s.hub.users[key]);
    c :| c in s.hub.users[key];
    HubSystem.MapsAgree(s, c, key, "");
    KeyOfServing(s, c);
  }
}
