/**
 Many hubs joined by a publish/subscribe bus that loses and repeats nothing but delivers in
 any order. A tenant broadcast goes to every node, its own included; a user message goes to the
 sender's own connections or, failing all of them, to the one node the registry names.
 */
module Delivery {
  import opened UserKeys
  import opened HubModel
  import Hub = HubSystem
  import Registry

  type NodeId = Registry.NodeId

  datatype Packet = TenantPacket(msg: nat, to: NodeId) | UserPacket(msg: nat, to: NodeId)

  // One message handed to one connection.
  datatype Copy = Copy(msg: nat, conn: ConnId)

  // A broadcast, and for each node that has handled it the tenant's connections it found there.
  datatype Cast = Cast(origin: NodeId, tenant: string, exclude: ConnId, seen: map<NodeId, set<ConnId>>)

  // A user message: whom it is for, and the node and connections that took it.
  datatype Send = Send(origin: NodeId, user: Int64, role: string, stage: Stage, at: NodeId, got: set<ConnId>)

  datatype Stage = Looking | Sent(to: NodeId) | Over

  datatype Cluster = Cluster(nodes: map<NodeId, Hub.Sys>, owner: map<Int64, NodeId>, bus: set<Packet>,
                             copies: multiset<Copy>, casts: map<nat, Cast>, sends: map<nat, Send>)

  datatype Action =
    | HubStep(n: NodeId, a: Hub.Action)
    | Own(user: Int64, n: NodeId)
    | Disown(user: Int64)
    | Publish(msg: nat, n: NodeId, tenant: string, exclude: ConnId)
    | DeliverTenant(msg: nat, n: NodeId)
    | SendUser(msg: nat, n: NodeId, user: Int64, role: string, got: set<ConnId>)
    | LookUpNode(msg: nat)
    | DeliverUser(msg: nat, n: NodeId, got: set<ConnId>)

  function Start(ids: set<NodeId>): Cluster {
    Cluster(map n | n in ids :: Hub.START, map[], {}, multiset{}, map[], map[])
  }

  function CopiesOf(msg: nat, conns: set<ConnId>): multiset<Copy> {
    multiset(set c | c in conns :: Copy(msg, c))
  }

  // Connection ids are unique across nodes.
  predicate Unused(k: Cluster, c: ConnId) {
    forall n :: n in k.nodes ==> c !in k.nodes[n].phase
  }

  // The tenant's connections at node n are snapshot under its lock and each but the excluded one is sent a copy.
  function Handle(k: Cluster, msg: nat, n: NodeId): Cluster
    requires n in k.nodes && msg in k.casts
  {
    var cast := k.casts[msg];
    var found := Found(k.nodes[n].hub.tenants, cast.tenant);
    k.(copies := k.copies + CopiesOf(msg, found - {cast.exclude}),
       casts := k.casts[msg := cast.(seen := cast.seen[n := found])])
  }

  function DoPublish(k: Cluster, msg: nat, n: NodeId, tenant: string, exclude: ConnId): Cluster {
    if msg in k.casts || msg in k.sends || n !in k.nodes then k
    else
      var k1 := Handle(k.(casts := k.casts[msg := Cast(n, tenant, exclude, map[])]), msg, n);
      k1.(bus := k1.bus + set to | to in k.nodes :: TenantPacket(msg, to))
  }

  // The publisher's own echo is recognised by its node id and ignored.
  function DoDeliverTenant(k: Cluster, msg: nat, n: NodeId): Cluster {
    if TenantPacket(msg, n) !in k.bus || n !in k.nodes || msg !in k.casts then k
    else
      var k1 := k.(bus := k.bus - {TenantPacket(msg, n)});
      if k.casts[msg].origin == n then k1 else Handle(k1, msg, n)
  }

  // Local connections first; `got` are those whose Send returned no error.
  function DoSendUser(k: Cluster, msg: nat, n: NodeId, user: Int64, role: string, got: set<ConnId>): Cluster {
    if msg in k.casts || msg in k.sends || n !in k.nodes || user <= 0 || !Hub.KnownRole(role) then k
    else if !(got <= Found(k.nodes[n].hub.users, UserKey(user, role))) then k
    else
      k.(copies := k.copies + CopiesOf(msg, got),
         sends := k.sends[msg := Send(n, user, role, if got == {} then Looking else Over, n, got)])
  }

  // Only when no local send succeeded: one packet to the node the registry names, unless it is this one.
  function DoLookUpNode(k: Cluster, msg: nat): Cluster {
    if msg !in k.sends || k.sends[msg].stage != Looking then k
    else
      var send := k.sends[msg];
      if send.user in k.owner && k.owner[send.user] != send.origin then
        var to := k.owner[send.user];
        k.(bus := k.bus + {UserPacket(msg, to)}, sends := k.sends[msg := send.(stage := Sent(to))])
      else k.(sends := k.sends[msg := send.(stage := Over)])
  }

  function DoDeliverUser(k: Cluster, msg: nat, n: NodeId, got: set<ConnId>): Cluster {
    if UserPacket(msg, n) !in k.bus || n !in k.nodes || msg !in k.sends then k
    else if !(got <= Found(k.nodes[n].hub.users, UserKey(k.sends[msg].user, k.sends[msg].role))) then k
    else
      k.(bus := k.bus - {UserPacket(msg, n)}, copies := k.copies + CopiesOf(msg, got),
         sends := k.sends[msg := k.sends[msg].(stage := Over, at := n, got := got)])
  }

  function Step(k: Cluster, a: Action): Cluster {
    match a
    case HubStep(n, h) =>
      if n !in k.nodes || (h.Open? && !Unused(k, h.c)) then k
      else k.(nodes := k.nodes[n := Hub.Step(k.nodes[n], h)])
    case Own(user, n) => k.(owner := k.owner[user := n])
    case Disown(user) => k.(owner := k.owner - {user})
    case Publish(msg, n, tenant, exclude) => DoPublish(k, msg, n, tenant, exclude)
    case DeliverTenant(msg, n) => DoDeliverTenant(k, msg, n)
    case SendUser(msg, n, user, role, got) => DoSendUser(k, msg, n, user, role, got)
    case LookUpNode(msg) => DoLookUpNode(k, msg)
    case DeliverUser(msg, n, got) => DoDeliverUser(k, msg, n, got)
  }

  function Run(k: Cluster, trace: seq<Action>): Cluster {
    if trace == [] then k else Step(Run(k, trace[..|trace| - 1]), trace[|trace| - 1])
  }

  /* ---- what holds in every run ---- */

  ghost predicate NodesOk(nodes: map<NodeId, Hub.Sys>) {
    && (forall n :: n in nodes ==> Hub.SysOk(nodes[n]))
    && (forall m, n, c :: m in nodes && n in nodes && c in nodes[m].phase && c in nodes[n].phase ==> m == n)
  }

  // Connections of node n whose identity satisfies what a message asked for; identities are frozen.
  predicate OfTenant(s: Hub.Sys, conns: set<ConnId>, tenant: string) {
    forall c :: c in conns ==> Hub.At(s, c) && s.hub.who[c].user > 0 && s.hub.who[c].tenant == tenant
  }

  predicate OfUser(s: Hub.Sys, conns: set<ConnId>, user: Int64, role: string) {
    forall c :: c in conns ==> Hub.At(s, c) && s.hub.who[c].user == user && s.hub.who[c].role == role
  }

  // The broadcast reached the connection at some node.
  ghost predicate Reached(cast: Cast, c: ConnId) {
    c != cast.exclude && exists n :: n in cast.seen && c in cast.seen[n]
  }

  ghost predicate CastOk(k: Cluster, msg: nat, cast: Cast) {
    && cast.origin in cast.seen
    && (forall n :: n in cast.seen ==> n in k.nodes && OfTenant(k.nodes[n], cast.seen[n], cast.tenant))
    && (forall n :: n in k.nodes ==> n in cast.seen || TenantPacket(msg, n) in k.bus)
    && (forall n :: TenantPacket(msg, n) in k.bus && n in cast.seen ==> n == cast.origin)
    && (forall c :: CastCounts(k, msg, cast, c))
  }

  ghost predicate CastCounts(k: Cluster, msg: nat, cast: Cast, c: ConnId) {
    k.copies[Copy(msg, c)] == if Reached(cast, c) then 1 else 0
  }

  predicate SendCounts(k: Cluster, msg: nat, got: set<ConnId>, c: ConnId) {
    k.copies[Copy(msg, c)] == if c in got then 1 else 0
  }

  ghost predicate SendOk(k: Cluster, msg: nat, send: Send) {
    && send.user > 0 && Hub.KnownRole(send.role)
    && send.at in k.nodes && OfUser(k.nodes[send.at], send.got, send.user, send.role)
    && (send.stage != Over ==> send.got == {})
    && (forall n :: UserPacket(msg, n) in k.bus ==> send.stage == Sent(n))
    && (forall c :: SendCounts(k, msg, send.got, c))
  }

  ghost predicate ClusterOk(k: Cluster) {
    NodesOk(k.nodes) && MessagesOk(k)
  }

  ghost predicate MessagesOk(k: Cluster) {
    forall msg :: MessageOk(k, msg)
  }

  ghost predicate MessageOk(k: Cluster, msg: nat) {
    && (msg in k.casts ==> msg !in k.sends && CastOk(k, msg, k.casts[msg]))
    && (msg in k.sends ==> SendOk(k, msg, k.sends[msg]))
    && (msg !in k.casts && msg !in k.sends ==> Unsent(k, msg))
    && (msg !in k.casts ==> forall n :: TenantPacket(msg, n) !in k.bus)
    && (msg !in k.sends ==> forall n :: UserPacket(msg, n) !in k.bus)
  }

  ghost predicate Unsent(k: Cluster, msg: nat) {
    forall c :: SendCounts(k, msg, {}, c)
  }

  lemma CopiesCount(msg: nat, conns: set<ConnId>, other: nat, c: ConnId)
    ensures CopiesOf(msg, conns)[Copy(other, c)] == if other == msg && c in conns then 1 else 0
  {
    var copies := set d | d in conns :: Copy(msg, d);
    assert Copy(other, c) in copies <==> other == msg && c in conns;
  }

  lemma FoundAreTenants(k: Cluster, n: NodeId, tenant: string)
    requires NodesOk(k.nodes) && n in k.nodes
    ensures OfTenant(k.nodes[n], Found(k.nodes[n].hub.tenants, tenant), tenant)
  {
    var s := k.nodes[n];
    forall c | c in Found(s.hub.tenants, tenant)
      ensures Hub.At(s, c) && s.hub.who[c].user > 0 && s.hub.who[c].tenant == tenant
    {
      assert Hub.SysOk(s) && Member(s.hub.tenants, tenant, c);
      assert Hub.IdentOk(s.hub.who[c], s.phase[c]);
    }
  }

  lemma FoundAreUsers(k: Cluster, n: NodeId, user: Int64, role: string, got: set<ConnId>)
    requires NodesOk(k.nodes) && n in k.nodes && Hub.KnownRole(role) && got <= Found(k.nodes[n].hub.users, UserKey(user, role))
    ensures OfUser(k.nodes[n], got, user, role)
  {
    var s := k.nodes[n];
    forall c | c in got ensures Hub.At(s, c) && s.hub.who[c].user == user && s.hub.who[c].role == role {
      assert Hub.SysOk(s) && Member(s.hub.users, UserKey(user, role), c);
      assert Hub.IdentOk(s.hub.who[c], s.phase[c]);
      KeysAreInjective(user, role, s.hub.who[c].user, s.hub.who[c].role);
    }
  }

  // No other node has ever opened one of this node's connections.
  ghost predicate Alone(k: Cluster, n: NodeId)
    requires n in k.nodes
  {
    forall m, c :: m in k.nodes && m != n && c in k.nodes[n].phase ==> !Hub.At(k.nodes[m], c)
  }

  lemma NodesAreAlone(k: Cluster, n: NodeId)
    requires NodesOk(k.nodes) && n in k.nodes
    ensures Alone(k, n)
  {
  }

  // Handling a broadcast at a node that has not seen it gives each found connection its first copy.
  lemma HandleCounts(k: Cluster, msg: nat, n: NodeId, c: ConnId)
    requires n in k.nodes && msg in k.casts && n !in k.casts[msg].seen && Alone(k, n)
    requires OfTenant(k.nodes[n], Found(k.nodes[n].hub.tenants, k.casts[msg].tenant), k.casts[msg].tenant)
    requires forall m :: m in k.casts[msg].seen ==>
      m in k.nodes && OfTenant(k.nodes[m], k.casts[msg].seen[m], k.casts[msg].tenant)
    requires CastCounts(k, msg, k.casts[msg], c)
    ensures CastCounts(Handle(k, msg, n), msg, Handle(k, msg, n).casts[msg], c)
  {
    var cast, cast' := k.casts[msg], Handle(k, msg, n).casts[msg];
    var found := Found(k.nodes[n].hub.tenants, cast.tenant);
    CopiesCount(msg, found - {cast.exclude}, msg, c);
    if c in found {
      assert c in cast'.seen[n];
      assert forall m :: m in cast.seen ==> c !in cast.seen[m];
    } else {
      assert forall m :: m in cast.seen && c in cast.seen[m] ==> m in cast'.seen && c in cast'.seen[m];
    }
  }

  /* ---- every step ---- */

  lemma HubStepKeepsNodes(k: Cluster, n: NodeId, h: Hub.Action)
    requires NodesOk(k.nodes) && n in k.nodes && (h.Open? ==> Unused(k, h.c))
    ensures NodesOk(Step(k, HubStep(n, h)).nodes) && Hub.Frozen(k.nodes[n], Hub.Step(k.nodes[n], h))
  {
    Hub.StepKeepsSys(k.nodes[n], h);
    Hub.StepFreezes(k.nodes[n], h);
    PhasesGrow(k.nodes[n], h);
  }

  lemma PhasesGrow(s: Hub.Sys, h: Hub.Action)
    ensures forall c :: c in Hub.Step(s, h).phase ==> c in s.phase || (h.Open? && c == h.c)
  {
  }

  lemma HubStepKeepsMessage(k: Cluster, k': Cluster, n: NodeId, msg: nat)
    requires MessageOk(k, msg) && n in k.nodes && n in k'.nodes
    requires k' == k.(nodes := k.nodes[n := k'.nodes[n]]) && Hub.Frozen(k.nodes[n], k'.nodes[n])
    ensures MessageOk(k', msg)
  {
    if msg in k.casts {
      CastSurvives(k, k', msg, n);
    } else if msg in k.sends {
      SendSurvives(k, k', msg, n);
    } else {
      assert forall c :: SendCounts(k, msg, {}, c) ==> SendCounts(k', msg, {}, c);
    }
  }

  lemma CastSurvives(k: Cluster, k': Cluster, msg: nat, n: NodeId)
    requires msg in k.casts && CastOk(k, msg, k.casts[msg]) && n in k.nodes && n in k'.nodes
    requires k' == k.(nodes := k.nodes[n := k'.nodes[n]]) && Hub.Frozen(k.nodes[n], k'.nodes[n])
    ensures CastOk(k', msg, k.casts[msg])
  {
    var cast := k.casts[msg];
    forall m | m in cast.seen ensures OfTenant(k'.nodes[m], cast.seen[m], cast.tenant) {
      assert OfTenant(k.nodes[m], cast.seen[m], cast.tenant);
    }
    forall c ensures CastCounts(k', msg, cast, c) {
      assert CastCounts(k, msg, cast, c);
    }
  }

  lemma SendSurvives(k: Cluster, k': Cluster, msg: nat, n: NodeId)
    requires msg in k.sends && SendOk(k, msg, k.sends[msg]) && n in k.nodes && n in k'.nodes
    requires k' == k.(nodes := k.nodes[n := k'.nodes[n]]) && Hub.Frozen(k.nodes[n], k'.nodes[n])
    ensures SendOk(k', msg, k.sends[msg])
  {
    var send := k.sends[msg];
    assert OfUser(k.nodes[send.at], send.got, send.user, send.role);
    forall c ensures SendCounts(k', msg, send.got, c) {
      assert SendCounts(k, msg, send.got, c);
    }
  }

  // Nothing about message m is different, and every node is as it was. What the registry says
  // does not matter.
  ghost predicate Same(k: Cluster, k': Cluster, m: nat) {
    && k'.nodes == k.nodes
    && (m in k'.casts <==> m in k.casts) && (m in k'.sends <==> m in k.sends)
    && (m in k.casts ==> k'.casts[m] == k.casts[m])
    && (m in k.sends ==> k'.sends[m] == k.sends[m])
    && (forall c :: k'.copies[Copy(m, c)] == k.copies[Copy(m, c)])
    && (forall n :: TenantPacket(m, n) in k'.bus <==> TenantPacket(m, n) in k.bus)
    && (forall n :: UserPacket(m, n) in k'.bus <==> UserPacket(m, n) in k.bus)
  }

  lemma SameIsKept(k: Cluster, k': Cluster, m: nat)
    requires Same(k, k', m) && MessageOk(k, m)
    ensures MessageOk(k', m)
  {
    if m in k.casts {
      forall c ensures CastCounts(k', m, k.casts[m], c) { assert CastCounts(k, m, k.casts[m], c); }
    } else if m in k.sends {
      forall c ensures SendCounts(k', m, k.sends[m].got, c) { assert SendCounts(k, m, k.sends[m].got, c); }
    } else {
      forall c ensures SendCounts(k', m, {}, c) { assert SendCounts(k, m, {}, c); }
    }
  }

  lemma CopiesOnlyAbout(copies: multiset<Copy>, msg: nat, conns: set<ConnId>)
    ensures forall m, c :: m != msg ==> (copies + CopiesOf(msg, conns))[Copy(m, c)] == copies[Copy(m, c)]
  {
    forall m, c | m != msg ensures (copies + CopiesOf(msg, conns))[Copy(m, c)] == copies[Copy(m, c)] {
      CopiesCount(msg, conns, m, c);
    }
  }

  // The bookkeeping of Handle, given where the message's packets now are.
  lemma HandleKeeps(k: Cluster, msg: nat, n: NodeId)
    requires n in k.nodes && msg in k.casts && n !in k.casts[msg].seen && Alone(k, n)
    requires OfTenant(k.nodes[n], Found(k.nodes[n].hub.tenants, k.casts[msg].tenant), k.casts[msg].tenant)
    requires forall m :: m in k.casts[msg].seen ==>
      m in k.nodes && OfTenant(k.nodes[m], k.casts[msg].seen[m], k.casts[msg].tenant)
    requires forall c :: CastCounts(k, msg, k.casts[msg], c)
    requires k.casts[msg].origin in k.casts[msg].seen || k.casts[msg].origin == n
    requires forall m :: m in k.nodes ==> m == n || m in k.casts[msg].seen || TenantPacket(msg, m) in k.bus
    requires forall m :: TenantPacket(msg, m) in k.bus && (m in k.casts[msg].seen || m == n) ==> m == k.casts[msg].origin
    ensures CastOk(Handle(k, msg, n), msg, Handle(k, msg, n).casts[msg])
  {
    var k' := Handle(k, msg, n);
    forall c ensures CastCounts(k', msg, k'.casts[msg], c) {
      HandleCounts(k, msg, n, c);
    }
  }

  lemma PublishKeeps(k: Cluster, msg: nat, n: NodeId, tenant: string, exclude: ConnId)
    requires MessageOk(k, msg) && n in k.nodes && Alone(k, n)
    requires OfTenant(k.nodes[n], Found(k.nodes[n].hub.tenants, tenant), tenant)
    ensures MessageOk(DoPublish(k, msg, n, tenant, exclude), msg)
  {
    if msg !in k.casts && msg !in k.sends {
      var k0 := Announced(k, msg, n, tenant, exclude);
      forall c ensures CastCounts(k0, msg, k0.casts[msg], c) {
        assert SendCounts(k, msg, {}, c);
      }
      HandleKeeps(k0, msg, n);
    }
  }

  // A broadcast with its packets on the bus and no node served yet.
  function Announced(k: Cluster, msg: nat, n: NodeId, tenant: string, exclude: ConnId): (k0: Cluster)
    requires n in k.nodes && msg !in k.casts && msg !in k.sends
    ensures k0.nodes == k.nodes && k0.sends == k.sends && k0.copies == k.copies
    ensures msg in k0.casts && k0.casts - {msg} == k.casts
    ensures DoPublish(k, msg, n, tenant, exclude) == Handle(k0, msg, n)
    ensures forall m, to :: TenantPacket(m, to) in k0.bus <==> TenantPacket(m, to) in k.bus || (m == msg && to in k.nodes)
    ensures forall m, to :: UserPacket(m, to) in k0.bus <==> UserPacket(m, to) in k.bus
  {
    k.(casts := k.casts[msg := Cast(n, tenant, exclude, map[])],
       bus := k.bus + set to | to in k.nodes :: TenantPacket(msg, to))
  }

  lemma EchoKeeps(k: Cluster, msg: nat, n: NodeId)
    requires MessageOk(k, msg) && TenantPacket(msg, n) in k.bus && n in k.nodes && msg in k.casts
    requires k.casts[msg].origin == n
    ensures MessageOk(DoDeliverTenant(k, msg, n), msg)
  {
    var k' := DoDeliverTenant(k, msg, n);
    forall c ensures CastCounts(k', msg, k.casts[msg], c) {
      assert CastCounts(k, msg, k.casts[msg], c);
    }
  }

  lemma DeliverTenantKeeps(k: Cluster, msg: nat, n: NodeId)
    requires MessageOk(k, msg) && TenantPacket(msg, n) in k.bus && n in k.nodes && msg in k.casts && Alone(k, n)
    requires OfTenant(k.nodes[n], Found(k.nodes[n].hub.tenants, k.casts[msg].tenant), k.casts[msg].tenant)
    ensures MessageOk(DoDeliverTenant(k, msg, n), msg)
  {
    if k.casts[msg].origin == n {
      EchoKeeps(k, msg, n);
    } else {
      var k1 := k.(bus := k.bus - {TenantPacket(msg, n)});
      forall c ensures CastCounts(k1, msg, k.casts[msg], c) {
        assert CastCounts(k, msg, k.casts[msg], c);
      }
      HandleKeeps(k1, msg, n);
    }
  }

  lemma SendUserKeeps(k: Cluster, msg: nat, n: NodeId, user: Int64, role: string, got: set<ConnId>)
    requires MessageOk(k, msg) && n in k.nodes && OfUser(k.nodes[n], got, user, role)
    ensures MessageOk(DoSendUser(k, msg, n, user, role, got), msg)
  {
    var k' := DoSendUser(k, msg, n, user, role, got);
    if k' != k {
      forall c ensures SendCounts(k', msg, got, c) {
        assert SendCounts(k, msg, {}, c);
        CopiesCount(msg, got, msg, c);
      }
    }
  }

  lemma LookUpNodeKeeps(k: Cluster, msg: nat)
    requires MessageOk(k, msg)
    ensures MessageOk(DoLookUpNode(k, msg), msg)
  {
    var k' := DoLookUpNode(k, msg);
    if k' != k {
      forall c ensures SendCounts(k', msg, k'.sends[msg].got, c) {
        assert SendCounts(k, msg, k.sends[msg].got, c);
      }
    }
  }

  lemma DeliverUserKeeps(k: Cluster, msg: nat, n: NodeId, got: set<ConnId>)
    requires MessageOk(k, msg) && UserPacket(msg, n) in k.bus && n in k.nodes && msg in k.sends
    requires OfUser(k.nodes[n], got, k.sends[msg].user, k.sends[msg].role)
    ensures MessageOk(DoDeliverUser(k, msg, n, got), msg)
  {
    var k' := DoDeliverUser(k, msg, n, got);
    if k' != k {
      forall c ensures SendCounts(k', msg, got, c) {
        assert SendCounts(k, msg, k.sends[msg].got, c);
        CopiesCount(msg, got, msg, c);
      }
    }
  }

  // The message a step is about, if it is about one.
  predicate About(a: Action, msg: nat) {
    !a.HubStep? && !a.Own? && !a.Disown? && a.msg == msg
  }

  lemma HandleSparesOthers(k: Cluster, msg: nat, n: NodeId, m: nat)
    requires n in k.nodes && msg in k.casts && m != msg
    ensures Same(k, Handle(k, msg, n), m)
  {
    CopiesOnlyAbout(k.copies, msg, Found(k.nodes[n].hub.tenants, k.casts[msg].tenant) - {k.casts[msg].exclude});
  }

  lemma PublishSparesOthers(k: Cluster, msg: nat, n: NodeId, tenant: string, exclude: ConnId, m: nat)
    requires m != msg
    ensures Same(k, DoPublish(k, msg, n, tenant, exclude), m)
  {
    if msg !in k.casts && msg !in k.sends && n in k.nodes {
      HandleSparesOthers(Announced(k, msg, n, tenant, exclude), msg, n, m);
    }
  }

  lemma DeliverTenantSparesOthers(k: Cluster, msg: nat, n: NodeId, m: nat)
    requires m != msg
    ensures Same(k, DoDeliverTenant(k, msg, n), m)
  {
    if n in k.nodes && msg in k.casts {
      HandleSparesOthers(k.(bus := k.bus - {TenantPacket(msg, n)}), msg, n, m);
    }
  }

  lemma SendUserSparesOthers(k: Cluster, msg: nat, n: NodeId, user: Int64, role: string, got: set<ConnId>, m: nat)
    requires m != msg
    ensures Same(k, DoSendUser(k, msg, n, user, role, got), m)
  {
    CopiesOnlyAbout(k.copies, msg, got);
  }

  lemma LookUpNodeSparesOthers(k: Cluster, msg: nat, m: nat)
    requires m != msg
    ensures Same(k, DoLookUpNode(k, msg), m)
  {
  }

  lemma DeliverUserSparesOthers(k: Cluster, msg: nat, n: NodeId, got: set<ConnId>, m: nat)
    requires m != msg
    ensures Same(k, DoDeliverUser(k, msg, n, got), m)
  {
    CopiesOnlyAbout(k.copies, msg, got);
  }

  lemma StepSparesOthers(k: Cluster, a: Action, m: nat)
    requires !a.HubStep? && !About(a, m)
    ensures Same(k, Step(k, a), m)
  {
    match a
    case Publish(msg, n, tenant, exclude) => PublishSparesOthers(k, msg, n, tenant, exclude, m);
    case DeliverTenant(msg, n) => DeliverTenantSparesOthers(k, msg, n, m);
    case SendUser(msg, n, user, role, got) => SendUserSparesOthers(k, msg, n, user, role, got, m);
    case DeliverUser(msg, n, got) => DeliverUserSparesOthers(k, msg, n, got, m);
    case LookUpNode(msg) => LookUpNodeSparesOthers(k, msg, m);
    case _ =>
  }

  lemma StepKeepsNodes(k: Cluster, a: Action)
    requires NodesOk(k.nodes)
    ensures NodesOk(Step(k, a).nodes)
  {
    match a
    case HubStep(n, h) => if n in k.nodes && (h.Open? ==> Unused(k, h.c)) { HubStepKeepsNodes(k, n, h); }
    case _ =>
  }

  lemma StepKeepsItsMessage(k: Cluster, a: Action, msg: nat)
    requires NodesOk(k.nodes) && MessageOk(k, msg) && About(a, msg)
    ensures MessageOk(Step(k, a), msg)
  {
    match a
    case Publish(_, n, tenant, exclude) =>
      if n in k.nodes {
        NodesAreAlone(k, n);
        FoundAreTenants(k, n, tenant);
        PublishKeeps(k, msg, n, tenant, exclude);
      }
    case DeliverTenant(_, n) =>
      if TenantPacket(msg, n) in k.bus && n in k.nodes && msg in k.casts {
        NodesAreAlone(k, n);
        FoundAreTenants(k, n, k.casts[msg].tenant);
        DeliverTenantKeeps(k, msg, n);
      }
    case SendUser(_, n, user, role, got) =>
      if Step(k, a) != k {
        FoundAreUsers(k, n, user, role, got);
        SendUserKeeps(k, msg, n, user, role, got);
      }
    case LookUpNode(_) => LookUpNodeKeeps(k, msg);
    case DeliverUser(_, n, got) =>
      if Step(k, a) != k {
        FoundAreUsers(k, n, k.sends[msg].user, k.sends[msg].role, got);
        DeliverUserKeeps(k, msg, n, got);
      }
  }

  lemma StepKeepsMessage(k: Cluster, a: Action, msg: nat)
    requires NodesOk(k.nodes) && MessageOk(k, msg)
    ensures MessageOk(Step(k, a), msg)
  {
    if About(a, msg) {
      StepKeepsItsMessage(k, a, msg);
    } else if a.HubStep? {
      if a.n in k.nodes && (a.a.Open? ==> Unused(k, a.a.c)) {
        HubStepKeepsNodes(k, a.n, a.a);
        HubStepKeepsMessage(k, Step(k, a), a.n, msg);
      }
    } else {
      StepSparesOthers(k, a, msg);
      SameIsKept(k, Step(k, a), msg);
    }
  }

  lemma StepKeepsCluster(k: Cluster, a: Action)
    requires ClusterOk(k)
    ensures ClusterOk(Step(k, a))
  {
    StepKeepsNodes(k, a);
    forall msg ensures MessageOk(Step(k, a), msg) {
      StepKeepsMessage(k, a, msg);
    }
  }

  lemma StartOk(ids: set<NodeId>)
    ensures ClusterOk(Start(ids))
  {
  }

  lemma {:induction false} RunKeepsCluster(ids: set<NodeId>, trace: seq<Action>)
    ensures ClusterOk(Run(Start(ids), trace))
  {
    if trace == [] {
      StartOk(ids);
    } else {
      RunKeepsCluster(ids, trace[..|trace| - 1]);
      StepKeepsCluster(Run(Start(ids), trace[..|trace| - 1]), trace[|trace| - 1]);
    }
  }

  ghost predicate Reachable(k: Cluster) {
    exists ids, trace :: k == Run(Start(ids), trace)
  }

  lemma ReachableOk(k: Cluster)
    requires Reachable(k)
    ensures ClusterOk(k)
  {
    var ids, trace :| k == Run(Start(ids), trace);
    RunKeepsCluster(ids, trace);
  }

  /* ---- what every run guarantees ---- */

  // Node n found the connection in the tenant when it handled the broadcast.
  predicate SeenAt(cast: Cast, n: NodeId, c: ConnId) {
    n in cast.seen && c in cast.seen[n]
  }

  lemma CastIsOk(k: Cluster, msg: nat, n: NodeId)
    requires Reachable(k) && msg in k.casts && n in k.nodes
    ensures CastOk(k, msg, k.casts[msg]) && Alone(k, n)
  {
    ReachableOk(k);
    assert MessageOk(k, msg);
    NodesAreAlone(k, n);
  }

  // What a node finds under the tenant when it handles a broadcast: all its connections bound
  // in that tenant and no other.
  lemma SnapshotIsTheTenant(k: Cluster, n: NodeId, tenant: string, c: ConnId)
    requires Reachable(k) && n in k.nodes
    ensures c in Found(k.nodes[n].hub.tenants, tenant) <==>
      Hub.Serving(k.nodes[n], c) && k.nodes[n].hub.who[c].tenant == tenant
  {
    ReachableOk(k);
    assert Hub.SysOk(k.nodes[n]);
    assert c in Found(k.nodes[n].hub.tenants, tenant) <==> Member(k.nodes[n].hub.tenants, tenant, c);
  }

  /* ---- which step handled a broadcast ---- */

  // Node n handles the broadcast: it publishes it, or takes its packet from the bus.
  predicate Handles(k: Cluster, a: Action, msg: nat, n: NodeId) {
    || (a.Publish? && a.msg == msg && a.n == n && msg !in k.casts && msg !in k.sends && n in k.nodes)
    || (a.DeliverTenant? && a.msg == msg && a.n == n && TenantPacket(msg, n) in k.bus && n in k.nodes
        && msg in k.casts && k.casts[msg].origin != n)
  }

  predicate HandledAt(ids: set<NodeId>, trace: seq<Action>, msg: nat, n: NodeId, i: nat)
    requires i < |trace|
  {
    Handles(Run(Start(ids), trace[..i]), trace[i], msg, n)
  }

  // A broadcast keeps its tenant and exclusion; a node enters its record at the step that handles
  // it and only then, with what its tenant index held.
  predicate CastMoves(k: Cluster, a: Action, msg: nat, n: NodeId) {
    var k' := Step(k, a);
    && (msg in k.casts ==> msg in k'.casts && k'.casts[msg].(seen := map[]) == k.casts[msg].(seen := map[]))
    && (msg in k'.casts && n in k'.casts[msg].seen ==>
          if msg in k.casts && n in k.casts[msg].seen
          then !Handles(k, a, msg, n) && k'.casts[msg].seen[n] == k.casts[msg].seen[n]
          else Handles(k, a, msg, n) && k'.casts[msg].seen[n] == Found(k.nodes[n].hub.tenants, k'.casts[msg].tenant))
    && (msg in k.casts && n in k.casts[msg].seen ==> n in k'.casts[msg].seen)
    && (Handles(k, a, msg, n) ==> msg in k'.casts && n in k'.casts[msg].seen)
  }

  lemma PublishMoves(k: Cluster, msg: nat, n: NodeId, tenant: string, exclude: ConnId, m: NodeId)
    requires MessageOk(k, msg)
    ensures CastMoves(k, Publish(msg, n, tenant, exclude), msg, m)
  {
  }

  lemma DeliverTenantMoves(k: Cluster, msg: nat, n: NodeId, m: NodeId)
    requires MessageOk(k, msg)
    ensures CastMoves(k, DeliverTenant(msg, n), msg, m)
  {
  }

  lemma CastStep(k: Cluster, a: Action, msg: nat, n: NodeId)
    requires MessageOk(k, msg)
    ensures CastMoves(k, a, msg, n)
  {
    if About(a, msg) {
      if a.Publish? { PublishMoves(k, msg, a.n, a.tenant, a.exclude, n); }
      if a.DeliverTenant? { DeliverTenantMoves(k, msg, a.n, n); }
    } else if !a.HubStep? {
      StepSparesOthers(k, a, msg);
    }
  }

  // What node n held under the tenant just before step i.
  function Snapshot(ids: set<NodeId>, trace: seq<Action>, n: NodeId, i: nat, tenant: string): set<ConnId>
    requires i <= |trace|
  {
    var k := Run(Start(ids), trace[..i]);
    if n in k.nodes then Found(k.nodes[n].hub.tenants, tenant) else {}
  }

  predicate HandledOnlyAt(ids: set<NodeId>, trace: seq<Action>, msg: nat, n: NodeId, i: nat)
    requires i < |trace|
  {
    HandledAt(ids, trace, msg, n, i) && forall j :: 0 <= j < |trace| && HandledAt(ids, trace, msg, n, j) ==> j == i
  }

  // The record says: handled at one step, with what the index held then; or at none so far.
  predicate Recorded(ids: set<NodeId>, trace: seq<Action>, msg: nat, n: NodeId) {
    var k := Run(Start(ids), trace);
    if msg in k.casts && n in k.casts[msg].seen then
      exists i :: 0 <= i < |trace| && HandledOnlyAt(ids, trace, msg, n, i)
                  && Snapshot(ids, trace, n, i, k.casts[msg].tenant) == k.casts[msg].seen[n]
    else forall i :: 0 <= i < |trace| ==> !HandledAt(ids, trace, msg, n, i)
  }

  lemma SamePrefix(ids: set<NodeId>, trace: seq<Action>, a: Action, msg: nat, n: NodeId, i: nat, tenant: string)
    requires i <= |trace|
    ensures i < |trace| ==> HandledAt(ids, trace + [a], msg, n, i) == HandledAt(ids, trace, msg, n, i)
    ensures i == |trace| ==> HandledAt(ids, trace + [a], msg, n, i) == Handles(Run(Start(ids), trace), a, msg, n)
    ensures Snapshot(ids, trace + [a], n, i, tenant) == Snapshot(ids, trace, n, i, tenant)
  {
    assert (trace + [a])[..i] == trace[..i];
    assert i == |trace| ==> trace[..i] == trace;
  }

  lemma NextRecorded(ids: set<NodeId>, trace: seq<Action>, a: Action, msg: nat, n: NodeId)
    requires Recorded(ids, trace, msg, n) && CastMoves(Run(Start(ids), trace), a, msg, n)
    requires Run(Start(ids), trace + [a]) == Step(Run(Start(ids), trace), a)
    ensures Recorded(ids, trace + [a], msg, n)
  {
    var k, k', longer := Run(Start(ids), trace), Run(Start(ids), trace + [a]), trace + [a];
    forall i | 0 <= i < |longer|
      ensures HandledAt(ids, longer, msg, n, i) == if i < |trace| then HandledAt(ids, trace, msg, n, i) else Handles(k, a, msg, n)
    {
      SamePrefix(ids, trace, a, msg, n, i, "");
    }
    if msg in k'.casts && n in k'.casts[msg].seen {
      var tenant := k'.casts[msg].tenant;
      if msg in k.casts && n in k.casts[msg].seen {
        var i :| 0 <= i < |trace| && HandledOnlyAt(ids, trace, msg, n, i)
          && Snapshot(ids, trace, n, i, tenant) == k.casts[msg].seen[n];
        SamePrefix(ids, trace, a, msg, n, i, tenant);
        assert HandledOnlyAt(ids, longer, msg, n, i);
      } else {
        SamePrefix(ids, trace, a, msg, n, |trace|, tenant);
        assert trace[..|trace|] == trace;
        assert HandledOnlyAt(ids, longer, msg, n, |trace|);
      }
    }
  }

  lemma {:induction false} RunRecords(ids: set<NodeId>, trace: seq<Action>, msg: nat, n: NodeId)
    ensures Recorded(ids, trace, msg, n)
  {
    if trace == [] {
      NothingRecorded(ids, msg, n);
    } else {
      var front, last := trace[..|trace| - 1], trace[|trace| - 1];
      RunRecords(ids, front, msg, n);
      NextMoves(ids, front, last, msg, n);
      NextRecorded(ids, front, last, msg, n);
      assert front + [last] == trace && Recorded(ids, front + [last], msg, n);
    }
  }

  lemma NothingRecorded(ids: set<NodeId>, msg: nat, n: NodeId)
    ensures Recorded(ids, [], msg, n)
  {
  }

  lemma NextMoves(ids: set<NodeId>, trace: seq<Action>, a: Action, msg: nat, n: NodeId)
    ensures Run(Start(ids), trace + [a]) == Step(Run(Start(ids), trace), a)
    ensures CastMoves(Run(Start(ids), trace), a, msg, n)
  {
    assert (trace + [a])[..|trace|] == trace;
    RunKeepsCluster(ids, trace);
    assert MessageOk(Run(Start(ids), trace), msg);
    CastStep(Run(Start(ids), trace), a, msg, n);
  }

  // A node handles a broadcast at most once in any run.
  lemma HandledOnce(ids: set<NodeId>, trace: seq<Action>, msg: nat, n: NodeId, i: nat, j: nat)
    requires i < |trace| && j < |trace| && HandledAt(ids, trace, msg, n, i) && HandledAt(ids, trace, msg, n, j)
    ensures i == j
  {
    RunRecords(ids, trace, msg, n);
  }

  // At step i node n handled the broadcast while the connection was bound there in the tenant.
  predicate FoundAt(ids: set<NodeId>, trace: seq<Action>, msg: nat, n: NodeId, i: nat, c: ConnId, tenant: string)
    requires i < |trace|
  {
    var k := Run(Start(ids), trace[..i]);
    && HandledAt(ids, trace, msg, n, i)
    && n in k.nodes && Hub.Serving(k.nodes[n], c) && k.nodes[n].hub.who[c].tenant == tenant
  }

  lemma SeenIffFound(ids: set<NodeId>, trace: seq<Action>, msg: nat, n: NodeId, c: ConnId)
    requires msg in Run(Start(ids), trace).casts
    ensures var cast := Run(Start(ids), trace).casts[msg];
      SeenAt(cast, n, c) <==> exists i :: 0 <= i < |trace| && FoundAt(ids, trace, msg, n, i, c, cast.tenant)
  {
    var cast := Run(Start(ids), trace).casts[msg];
    RunRecords(ids, trace, msg, n);
    forall i | 0 <= i < |trace| && HandledAt(ids, trace, msg, n, i)
      ensures FoundAt(ids, trace, msg, n, i, c, cast.tenant) == (c in Snapshot(ids, trace, n, i, cast.tenant))
    {
      FoundIsSnapshot(ids, trace, msg, n, i, c, cast.tenant);
    }
  }

  lemma FoundIsSnapshot(ids: set<NodeId>, trace: seq<Action>, msg: nat, n: NodeId, i: nat, c: ConnId, tenant: string)
    requires i < |trace| && HandledAt(ids, trace, msg, n, i)
    ensures FoundAt(ids, trace, msg, n, i, c, tenant) == (c in Snapshot(ids, trace, n, i, tenant))
  {
    var k := Run(Start(ids), trace[..i]);
    assert Reachable(k);
    SnapshotIsTheTenant(k, n, tenant, c);
  }

  // A broadcast with exclusion, over any run: a connection has one copy if its node has handled the
  // broadcast while it was bound there in the tenant, and it is not the excluded one; else none.
  lemma BroadcastReachesEachOnce(ids: set<NodeId>, trace: seq<Action>, msg: nat, n: NodeId, c: ConnId)
    requires var k := Run(Start(ids), trace); msg in k.casts && n in k.nodes && c in k.nodes[n].phase
    ensures var k := Run(Start(ids), trace);
      var cast := k.casts[msg];
      k.copies[Copy(msg, c)] ==
        if c != cast.exclude && exists i :: 0 <= i < |trace| && FoundAt(ids, trace, msg, n, i, c, cast.tenant) then 1 else 0
  {
    assert Reachable(Run(Start(ids), trace));
    SeenIffFound(ids, trace, msg, n, c);
    OneCopyIfSeen(Run(Start(ids), trace), msg, n, c);
  }

  lemma OneCopyIfSeen(k: Cluster, msg: nat, n: NodeId, c: ConnId)
    requires Reachable(k) && msg in k.casts && n in k.nodes && c in k.nodes[n].phase
    ensures k.copies[Copy(msg, c)] == if SeenAt(k.casts[msg], n, c) && c != k.casts[msg].exclude then 1 else 0
  {
    CastIsOk(k, msg, n);
    var cast := k.casts[msg];
    assert CastCounts(k, msg, cast, c);
    assert forall m :: m in cast.seen && m != n ==> c !in cast.seen[m];
    assert SeenAt(cast, n, c) <==> exists m :: m in cast.seen && c in cast.seen[m];
  }

  // No other tenant gets a copy, and once the bus holds no packet of it every node has handled it.
  lemma BroadcastStaysInTenant(k: Cluster, msg: nat, n: NodeId, c: ConnId)
    requires Reachable(k) && msg in k.casts && n in k.nodes
    ensures var cast := k.casts[msg];
      && (SeenAt(cast, n, c) ==> c in k.nodes[n].hub.who && k.nodes[n].hub.who[c].tenant == cast.tenant)
      && ((forall m :: TenantPacket(msg, m) !in k.bus) ==> cast.seen.Keys == k.nodes.Keys)
  {
    CastIsOk(k, msg, n);
    var cast := k.casts[msg];
    if SeenAt(cast, n, c) { assert OfTenant(k.nodes[n], cast.seen[n], cast.tenant); }
  }

  lemma SendIsOk(k: Cluster, msg: nat)
    requires Reachable(k) && msg in k.sends
    ensures SendOk(k, msg, k.sends[msg])
  {
    ReachableOk(k);
    assert MessageOk(k, msg);
  }

  // A user message: at most one copy per connection, only at connections bound to that user in
  // that role, all on one node, although the registry knows users by number alone.
  lemma UserMessageStaysWithUser(k: Cluster, msg: nat, c: ConnId)
    requires Reachable(k) && msg in k.sends
    ensures var send := k.sends[msg];
      && k.copies[Copy(msg, c)] <= 1
      && send.at in k.nodes
      && (k.copies[Copy(msg, c)] == 1 ==> OfUser(k.nodes[send.at], {c}, send.user, send.role))
  {
    SendIsOk(k, msg);
    assert SendCounts(k, msg, k.sends[msg].got, c);
  }

  /* ---- which node a user message goes to ---- */

  // At step i no connection of the sender's node had taken the message and the registry named `to`,
  // another node.
  predicate LookedUp(ids: set<NodeId>, trace: seq<Action>, msg: nat, to: NodeId, i: nat)
    requires i < |trace|
  {
    var k := Run(Start(ids), trace[..i]);
    && trace[i] == LookUpNode(msg) && msg in k.sends && k.sends[msg].got == {}
    && k.sends[msg].user in k.owner && k.owner[k.sends[msg].user] == to && to != k.sends[msg].origin
  }

  predicate WasLookedUp(ids: set<NodeId>, trace: seq<Action>, msg: nat, to: NodeId) {
    exists i :: 0 <= i < |trace| && LookedUp(ids, trace, msg, to, i)
  }

  // The packet is on the bus while the message is sent and not over; the node it is sent to, and
  // the node that took it, are the sender's own or one looked up.
  ghost predicate Followed(ids: set<NodeId>, trace: seq<Action>, msg: nat) {
    var k := Run(Start(ids), trace);
    msg in k.sends ==>
      var send := k.sends[msg];
      && (forall to :: UserPacket(msg, to) in k.bus <==> send.stage == Sent(to))
      && (send.stage != Over ==> send.got == {} && send.at == send.origin)
      && (send.stage.Sent? ==> WasLookedUp(ids, trace, msg, send.stage.to))
      && (send.at != send.origin ==> WasLookedUp(ids, trace, msg, send.at))
  }

  lemma StillLookedUp(ids: set<NodeId>, trace: seq<Action>, a: Action, msg: nat, to: NodeId)
    requires WasLookedUp(ids, trace, msg, to)
    ensures WasLookedUp(ids, trace + [a], msg, to)
  {
    var i :| 0 <= i < |trace| && LookedUp(ids, trace, msg, to, i);
    assert (trace + [a])[..i] == trace[..i];
    assert LookedUp(ids, trace + [a], msg, to, i);
  }

  lemma LookingUp(ids: set<NodeId>, trace: seq<Action>, msg: nat)
    requires var k := Run(Start(ids), trace);
      && msg in k.sends && k.sends[msg].got == {}
      && k.sends[msg].user in k.owner && k.owner[k.sends[msg].user] != k.sends[msg].origin
    ensures var k := Run(Start(ids), trace);
      WasLookedUp(ids, trace + [LookUpNode(msg)], msg, k.owner[k.sends[msg].user])
  {
    var k := Run(Start(ids), trace);
    assert (trace + [LookUpNode(msg)])[..|trace|] == trace;
    assert LookedUp(ids, trace + [LookUpNode(msg)], msg, k.owner[k.sends[msg].user], |trace|);
  }

  // What a step can do to a user message: begin it, look its node up, or deliver its packet.
  ghost predicate SendMoves(k: Cluster, a: Action, msg: nat) {
    var k' := Step(k, a);
    msg in k'.sends ==>
      if msg !in k.sends then
        var send := k'.sends[msg];
        send.at == send.origin && !send.stage.Sent? && (send.stage == Over || send.got == {})
        && (forall to :: UserPacket(msg, to) !in k'.bus)
      else if a == LookUpNode(msg) && k.sends[msg].stage == Looking then LooksUp(k, k', msg)
      else if a.DeliverUser? && a.msg == msg && UserPacket(msg, a.n) in k.bus && k'.sends[msg] != k.sends[msg] then
        k'.sends[msg].at == a.n && k'.sends[msg].origin == k.sends[msg].origin && k'.sends[msg].stage == Over
        && (forall to :: UserPacket(msg, to) in k'.bus <==> UserPacket(msg, to) in k.bus && to != a.n)
      else k'.sends[msg] == k.sends[msg] && (forall to :: UserPacket(msg, to) in k'.bus <==> UserPacket(msg, to) in k.bus)
  }

  // Sent exactly if the registry names another node.
  ghost predicate LooksUp(k: Cluster, k': Cluster, msg: nat)
    requires msg in k.sends && msg in k'.sends
  {
    var send := k.sends[msg];
    var away := send.user in k.owner && k.owner[send.user] != send.origin;
    && k'.sends[msg] == send.(stage := if away then Sent(k.owner[send.user]) else Over)
    && (forall to :: UserPacket(msg, to) in k'.bus <==>
          UserPacket(msg, to) in k.bus || (away && to == k.owner[send.user]))
  }

  lemma SendStep(k: Cluster, a: Action, msg: nat)
    requires MessageOk(k, msg)
    ensures SendMoves(k, a, msg)
  {
    if !a.HubStep? && !About(a, msg) { StepSparesOthers(k, a, msg); }
  }

  lemma NextFollowed(ids: set<NodeId>, trace: seq<Action>, a: Action, msg: nat)
    requires Followed(ids, trace, msg) && SendMoves(Run(Start(ids), trace), a, msg)
    requires Run(Start(ids), trace + [a]) == Step(Run(Start(ids), trace), a)
    ensures Followed(ids, trace + [a], msg)
  {
    var k, k' := Run(Start(ids), trace), Run(Start(ids), trace + [a]);
    if msg in k.sends && msg in k'.sends {
      var send := k.sends[msg];
      if send.stage.Sent? { StillLookedUp(ids, trace, a, msg, send.stage.to); }
      if send.at != send.origin { StillLookedUp(ids, trace, a, msg, send.at); }
      if a == LookUpNode(msg) && k'.sends[msg].stage.Sent? && send.stage == Looking { LookingUp(ids, trace, msg); }
    }
  }

  // Over any run: a user message is on the bus exactly while it is sent and not delivered, as one
  // packet; it is sent, and delivered away from its node, only to a node the registry named at a
  // look-up made after no local connection took it.
  lemma {:induction false} UserMessageFollowsRegistry(ids: set<NodeId>, trace: seq<Action>, msg: nat)
    ensures Followed(ids, trace, msg)
  {
    if trace != [] {
      var front, last := trace[..|trace| - 1], trace[|trace| - 1];
      UserMessageFollowsRegistry(ids, front, msg);
      RunKeepsCluster(ids, front);
      assert MessageOk(Run(Start(ids), front), msg);
      SendStep(Run(Start(ids), front), last, msg);
      assert front + [last] == trace;
      NextFollowed(ids, front, last, msg);
    }
  }

  // The look-up itself sends exactly when the registry names another node, and to that node.
  lemma LookUpSends(k: Cluster, msg: nat)
    requires Reachable(k) && msg in k.sends && k.sends[msg].stage == Looking
    ensures var k', send := Step(k, LookUpNode(msg)), k.sends[msg];
      && send.got == {} && msg in k'.sends
      && (send.user in k.owner && k.owner[send.user] != send.origin ==>
            k'.bus == k.bus + {UserPacket(msg, k.owner[send.user])} && k'.sends[msg].stage == Sent(k.owner[send.user]))
      && (send.user !in k.owner || k.owner[send.user] == send.origin ==> k'.bus == k.bus && k'.sends[msg].stage == Over)
  {
    SendIsOk(k, msg);
  }
}
