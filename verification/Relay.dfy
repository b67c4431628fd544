/**
 The two ends of the bus: what a node's subscriber does with a packet, and what a send or a
 broadcast at one node becomes on another whose hub is in any state its machine reaches.
 */
module Relay {
  import opened UserKeys
  import opened Tables
  import opened HubModel
  import opened HubServer
  import HubSystem

  // The connection is live and bound here; whose it is, its own fields say.
  ghost predicate BoundHere(hub: Hub, h: HubSystem.Sys, c: ConnId)
    reads hub`connections
  {
    c in hub.connections && c in h.phase && h.phase[c].Ready?
  }

  // In a reachable state the user index lists a connection under a key exactly when the fields on
  // the connection say so, and so does the tenant index.
  lemma IndexIsFields(hub: Hub, h: HubSystem.Sys, user: Int64, role: string, tenant: string, c: ConnId)
    requires hub.Valid() && HubSystem.Reachable(h) && h.hub == hub.View() && c in hub.known
    requires role == "visitor" || role == "agent"
    ensures c in hub.connections && UserKey(user, role) in hub.userConns && c in hub.userConns[UserKey(user, role)]
      <==> BoundHere(hub, h, c) && hub.known[c].user == user && hub.known[c].role == role
    ensures c in hub.connections && tenant in hub.tenantConns && c in hub.tenantConns[tenant]
      <==> BoundHere(hub, h, c) && hub.known[c].tenant == tenant
  {
    HubSystem.IndexServes(h, user, role);
    HubSystem.MapsAgree(h, c, "", tenant);
    assert h.hub.who[c] == hub.known[c].Who();
    assert c in Found(h.hub.users, UserKey(user, role)) <==> HubSystem.Serves(h, c, user, role);
    assert Member(h.hub.tenants, tenant, c) <==> HubSystem.Serving(h, c) && tenant == h.hub.who[c].tenant;
  }

  // A packet on this node's own channel is for one user; one on a tenant's channel is for every
  // node but its publisher.
  method Receive(hub: Hub, channel: Channel, msg: BroadcastMsg, ghost h: HubSystem.Sys)
    requires hub.Valid() && HubSystem.Reachable(h) && h.hub == hub.View()
    modifies hub.known.Values`sent, hub.known.Values`offered
    ensures channel == NodeChannel(hub.nodeID) && msg.user > 0 && (msg.role == "visitor" || msg.role == "agent") ==>
      forall c :: c in hub.known ==>
        hub.known[c].offered ==
          if BoundHere(hub, h, c) && hub.known[c].user == msg.user && hub.known[c].role == msg.role
          then old(hub.known[c].offered) + [msg.data] else old(hub.known[c].offered)
    ensures channel.TenantChannel? ==>
      forall c :: c in hub.known ==>
        hub.known[c].offered ==
          if msg.node != hub.nodeID && BoundHere(hub, h, c) && hub.known[c].tenant == msg.tenant && c != msg.exclude
          then old(hub.known[c].offered) + [msg.data] else old(hub.known[c].offered)
    ensures channel.NodeChannel? && channel != NodeChannel(hub.nodeID) ==>
      forall c :: c in hub.known ==> hub.known[c].offered == old(hub.known[c].offered)
  {
    forall c | c in hub.known && (msg.role == "visitor" || msg.role == "agent")
      ensures c in hub.connections && UserKey(msg.user, msg.role) in hub.userConns
          && c in hub.userConns[UserKey(msg.user, msg.role)]
        <==> BoundHere(hub, h, c) && hub.known[c].user == msg.user && hub.known[c].role == msg.role
    {
      IndexIsFields(hub, h, msg.user, msg.role, "", c);
    }
    forall c | c in hub.known
      ensures c in hub.connections && msg.tenant in hub.tenantConns && c in hub.tenantConns[msg.tenant]
        <==> BoundHere(hub, h, c) && hub.known[c].tenant == msg.tenant
    {
      IndexIsFields(hub, h, 0, "visitor", msg.tenant, c);
    }
    match channel {
      case NodeChannel(n) =>
        if n == hub.nodeID {
          hub.HandleRemoteNodeMessage(msg);
        }
      case TenantChannel(_) => hub.HandleRemoteTenantMessage(msg);
    }
  }

  // The registry of this node names that one for the user.
  ghost predicate Names(here: Hub, user: Int64, there: Hub)
    reads here, if here.distributor == null then {} else {here.distributor, here.distributor.redis}
  {
    && here.distributor != null && user in here.distributor.redis.leases
    && here.distributor.redis.now < here.distributor.redis.leases[user].deadline
    && here.distributor.redis.leases[user].node == there.nodeID
  }

  // A user message from here to there: if no connection here takes it and the registry names the
  // other node, it is offered, with the same data, to exactly the connections bound there as that
  // user in that role; in every other case to none there.
  method SendAcross(here: Hub, there: Hub, user: Int64, role: string, data: Payload, ghost h: HubSystem.Sys)
      returns (found: bool, ghost got: set<ConnId>)
    requires here.Valid() && there.Valid() && here != there && here.nodeID != there.nodeID
    requires HubSystem.Reachable(h) && h.hub == there.View()
    requires user > 0 && (role == "visitor" || role == "agent")
    modifies here.known.Values`sent, here.known.Values`offered, here.bus
    modifies there.known.Values`sent, there.known.Values`offered
    ensures forall c :: c in there.known ==>
      there.known[c].offered ==
        if got == {} && Names(here, user, there)
          && BoundHere(there, h, c) && there.known[c].user == user && there.known[c].role == role
        then old(there.known[c].offered) + [data] else old(there.known[c].offered)
  {
    var packet;
    packet, found, got := Leave(here, there, user, role, data);
    if packet.Some? {
      Receive(there, packet.value.0, packet.value.1, h);
    }
  }

  // The packet of a user message, if it leaves this node. The other hub is not touched.
  method Leave(here: Hub, ghost there: Hub, user: Int64, role: string, data: Payload)
      returns (packet: Option<(Channel, BroadcastMsg)>, found: bool, ghost got: set<ConnId>)
    requires here.Valid() && there.Valid() && here != there && here.nodeID != there.nodeID
    modifies here.known.Values`sent, here.known.Values`offered, here.bus
    ensures there.Valid() && there.View() == old(there.View())
    ensures forall c :: c in there.known ==> there.known[c].offered == old(there.known[c].offered)
    ensures packet.Some? ==>
      got == {} && packet.value.0.NodeChannel? && packet.value.1 == BroadcastMsg(here.nodeID, "", user, role, 0, data)
    ensures packet.Some? && packet.value.0 == NodeChannel(there.nodeID) <==> got == {} && Names(here, user, there)
  {
    var published := |here.bus.published|;
    Apart(here, there);
    found, got := here.SendToUser(user, role, data);
    packet := if |here.bus.published| > published then Some(here.bus.published[published]) else None;
  }

  lemma Apart(here: Hub, there: Hub)
    requires here.Valid() && there.Valid() && here != there
    ensures here.known.Values !! there.known.Values
  {
    forall conn | conn in here.known.Values ensures conn !in there.known.Values {
      assert conn.hub == here;
    }
  }

  // A broadcast from here, where the bus joins the two nodes: every connection bound there in the
  // tenant is offered it once, but for the excluded number.
  method BroadcastAcross(here: Hub, there: Hub, tenant: string, data: Payload, exclude: ConnId, ghost h: HubSystem.Sys)
    requires here.Valid() && there.Valid() && here != there && here.nodeID != there.nodeID
    requires HubSystem.Reachable(h) && h.hub == there.View()
    modifies here.known.Values`sent, here.known.Values`offered, here.bus
    modifies there.known.Values`sent, there.known.Values`offered
    ensures forall c :: c in there.known ==>
      there.known[c].offered ==
        if here.distributor != null && BoundHere(there, h, c) && there.known[c].tenant == tenant && c != exclude
        then old(there.known[c].offered) + [data] else old(there.known[c].offered)
  {
    var packet := Spread(here, there, tenant, data, exclude);
    if packet.Some? {
      Receive(there, packet.value.0, packet.value.1, h);
    }
  }

  method Spread(here: Hub, ghost there: Hub, tenant: string, data: Payload, exclude: ConnId)
      returns (packet: Option<(Channel, BroadcastMsg)>)
    requires here.Valid() && there.Valid() && here != there
    modifies here.known.Values`sent, here.known.Values`offered, here.bus
    ensures there.Valid() && there.View() == old(there.View())
    ensures forall c :: c in there.known ==> there.known[c].offered == old(there.known[c].offered)
    ensures packet == if here.distributor == null then None
      else Some((TenantChannel(tenant), BroadcastMsg(here.nodeID, tenant, 0, "", exclude, data)))
  {
    var published := |here.bus.published|;
    Apart(here, there);
    here.BroadcastToTenantExcept(tenant, data, exclude);
    packet := if |here.bus.published| > published then Some(here.bus.published[published]) else None;
  }
}
