/**
 The auth handler: it writes the identity onto the connection field by field, binds the user in
 the hub and pushes what the user missed. Removals may fall anywhere in between.
 */
module Authentication {
  import opened Tables
  import opened UserKeys
  import opened HubModel
  import opened HubServer
  import opened History
  import HubSystem
  import Stores

  datatype AuthResult = Authenticated | Incomplete | UnknownRole | BadCredentials

  function Claims(c: ConnId, tenant: string, role: string): seq<HubSystem.Action> {
    [HubSystem.BeginAuth(c, tenant, role)] + [HubSystem.SetRole(c)]
  }

  function Admits(c: ConnId, user: Int64): seq<HubSystem.Action> {
    [HubSystem.Identify(c, user)] + [HubSystem.BindUser(c)]
  }

  // The hub is in state s of its machine, the connection's auth handler stands at `phase`.
  ghost predicate Stands(hub: Hub, s: HubSystem.Sys, conn: Conn, phase: HubSystem.Phase)
    reads hub, hub.known.Values`user, hub.known.Values`role, hub.known.Values`tenant
  {
    && hub.Valid() && hub.Knows(conn) && hub.View() == s.hub
    && conn.id in s.phase && s.phase[conn.id] == phase
  }

  class AuthHandler {
    const hub: Hub
    const messages: Stores.MessageRepo

    constructor (hub: Hub, messages: Stores.MessageRepo)
      ensures this.hub == hub && this.messages == messages
    {
      this.hub, this.messages := hub, messages;
    }

    // After steps of its own the handler lets the others run.
    method OthersFollow(conn: Conn, ghost s: HubSystem.Sys, ghost now: HubSystem.Sys, ghost own: seq<HubSystem.Action>)
        returns (ghost s': HubSystem.Sys)
      requires conn.id in now.phase && Stands(hub, now, conn, now.phase[conn.id])
      requires HubSystem.Interleaved(s, now, conn.id, own)
      modifies hub`connections, hub`known, hub`userConns, hub`tenantConns, hub`events
      modifies hub.known.Values`user, hub.known.Values`role, hub.known.Values`tenant
      ensures Stands(hub, s', conn, now.phase[conn.id]) && conn.Who() == old(conn.Who())
      ensures fresh(hub.known.Values - old(hub.known.Values))
      ensures HubSystem.Interleaved(s, s', conn.id, own)
    {
      assert now.hub.who[conn.id] == conn.Who();
      s' := hub.OthersRun(now, conn.id);
      HubSystem.Chained(s, now, s', conn.id, own, []);
      assert own + [] == own;
      HubSystem.OthersSpareAuth(now, s', conn.id);
      assert s'.hub.who[conn.id] == conn.Who();
    }

    method SetTenant(conn: Conn, tenant: string, ghost role: string, ghost s: HubSystem.Sys) returns (ghost s': HubSystem.Sys)
      requires Stands(hub, s, conn, HubSystem.Idle) && conn.user == 0 && tenant != "" && role != ""
      modifies hub`connections, hub`known, hub`userConns, hub`tenantConns, hub`events
      modifies hub.known.Values`user, hub.known.Values`role, hub.known.Values`tenant
      ensures Stands(hub, s', conn, HubSystem.Tenanted(role)) && conn.Who() == old(conn.Who()).(tenant := tenant)
      ensures fresh(hub.known.Values - old(hub.known.Values))
      ensures HubSystem.Interleaved(s, s', conn.id, [HubSystem.BeginAuth(conn.id, tenant, role)])
    {
      assert s.hub.who[conn.id] == conn.Who();
      conn.tenant := tenant;
      ghost var now := HubSystem.Become(s, conn.id, conn.Who(), HubSystem.Tenanted(role));
      assert hub.View() == now.hub;
      BeginSteps(s, conn.id, tenant, role);
      s' := OthersFollow(conn, s, now, [HubSystem.BeginAuth(conn.id, tenant, role)]);
    }

    method SetRole(conn: Conn, role: string, ghost s: HubSystem.Sys) returns (ghost s': HubSystem.Sys)
      requires Stands(hub, s, conn, HubSystem.Tenanted(role))
      modifies hub`connections, hub`known, hub`userConns, hub`tenantConns, hub`events
      modifies hub.known.Values`user, hub.known.Values`role, hub.known.Values`tenant
      ensures Stands(hub, s', conn, HubSystem.Claimed) && conn.Who() == old(conn.Who()).(role := role)
      ensures fresh(hub.known.Values - old(hub.known.Values))
      ensures HubSystem.Interleaved(s, s', conn.id, [HubSystem.SetRole(conn.id)])
    {
      assert s.hub.who[conn.id] == conn.Who();
      conn.role := role;
      ghost var now := HubSystem.Become(s, conn.id, conn.Who(), HubSystem.Claimed);
      assert hub.View() == now.hub;
      RoleSteps(s, conn.id, role);
      s' := OthersFollow(conn, s, now, [HubSystem.SetRole(conn.id)]);
    }

    method SetUser(conn: Conn, user: Int64, ghost s: HubSystem.Sys) returns (ghost s': HubSystem.Sys)
      requires Stands(hub, s, conn, HubSystem.Claimed) && HubSystem.KnownRole(conn.role) && user > 0
      modifies hub`connections, hub`known, hub`userConns, hub`tenantConns, hub`events
      modifies hub.known.Values`user, hub.known.Values`role, hub.known.Values`tenant
      ensures Stands(hub, s', conn, HubSystem.Known) && conn.Who() == old(conn.Who()).(user := user)
      ensures fresh(hub.known.Values - old(hub.known.Values))
      ensures HubSystem.Interleaved(s, s', conn.id, [HubSystem.Identify(conn.id, user)])
    {
      assert s.hub.who[conn.id] == conn.Who();
      conn.user := user;
      ghost var now := HubSystem.Become(s, conn.id, conn.Who(), HubSystem.Known);
      assert hub.View() == now.hub;
      UserSteps(s, conn.id, user);
      s' := OthersFollow(conn, s, now, [HubSystem.Identify(conn.id, user)]);
    }

    method Bind(conn: Conn, ghost s: HubSystem.Sys) returns (ghost s': HubSystem.Sys)
      requires Stands(hub, s, conn, HubSystem.Known)
      modifies hub`userConns, hub`tenantConns, hub`events
      ensures Stands(hub, s', conn, HubSystem.Ready)
      ensures HubSystem.Interleaved(s, s', conn.id, [HubSystem.BindUser(conn.id)])
    {
      assert s.hub.who[conn.id] == conn.Who();
      s' := HubSystem.Step(s, HubSystem.BindUser(conn.id));
      HubSystem.TakesStep(s, HubSystem.BindUser(conn.id), conn.id);
      hub.BindUser(conn.user, conn.role, conn);
    }

    // Tenant and role are set before anything is checked.
    method Claim(conn: Conn, tenant: string, role: string, ghost s: HubSystem.Sys) returns (ghost s': HubSystem.Sys)
      requires Stands(hub, s, conn, HubSystem.Idle) && conn.user == 0 && tenant != "" && role != ""
      modifies hub`connections, hub`known, hub`userConns, hub`tenantConns, hub`events
      modifies hub.known.Values`user, hub.known.Values`role, hub.known.Values`tenant
      ensures Stands(hub, s', conn, HubSystem.Claimed) && conn.Who() == Ident(0, role, tenant)
      ensures fresh(hub.known.Values - old(hub.known.Values))
      ensures HubSystem.Interleaved(s, s', conn.id, Claims(conn.id, tenant, role))
    {
      ghost var begun := SetTenant(conn, tenant, role, s);
      s' := SetRole(conn, role, begun);
      HubSystem.Chained(s, begun, s', conn.id, [HubSystem.BeginAuth(conn.id, tenant, role)], [HubSystem.SetRole(conn.id)]);
    }

    method Admit(conn: Conn, user: Int64, ghost s: HubSystem.Sys) returns (ghost s': HubSystem.Sys)
      requires Stands(hub, s, conn, HubSystem.Claimed) && HubSystem.KnownRole(conn.role) && user > 0
      modifies hub`connections, hub`known, hub`userConns, hub`tenantConns, hub`events
      modifies hub.known.Values`user, hub.known.Values`role, hub.known.Values`tenant
      ensures Stands(hub, s', conn, HubSystem.Ready) && conn.Who() == old(conn.Who()).(user := user)
      ensures HubSystem.Interleaved(s, s', conn.id, Admits(conn.id, user))
    {
      ghost var known := SetUser(conn, user, s);
      s' := Bind(conn, known);
      HubSystem.Chained(s, known, s', conn.id, [HubSystem.Identify(conn.id, user)], [HubSystem.BindUser(conn.id)]);
    }

    // `found` is what the visitor or agent lookup answers. A well-formed attempt sets tenant and
    // role even if it then fails; only one that succeeds sets a user. The hub is in a state its
    // machine reaches, before and after, by exactly these steps with anything of others in between.
    method Handle(conn: Conn, tenant: string, role: string, found: Option<Int64>, ghost s: HubSystem.Sys)
        returns (r: AuthResult, ghost s': HubSystem.Sys)
      requires HubSystem.Reachable(s) && Stands(hub, s, conn, HubSystem.Idle) && conn.user == 0
      requires found.Some? ==> found.value > 0
      modifies hub`connections, hub`known, hub`userConns, hub`tenantConns, hub`events
      modifies hub.known.Values`user, hub.known.Values`role, hub.known.Values`tenant
      ensures HubSystem.Reachable(s') && Stands(hub, s', conn, if r.Authenticated? then HubSystem.Ready else HubSystem.Idle)
      ensures r == if tenant == "" || role == "" then Incomplete else if role != "visitor" && role != "agent" then UnknownRole
        else if found.None? then BadCredentials else Authenticated
      ensures r.Incomplete? ==> s' == s && conn.Who() == old(conn.Who())
      ensures r.Authenticated? ==> conn.user == found.value && conn.role == role && conn.tenant == tenant
      ensures r.Authenticated? ==>
        HubSystem.Interleaved(s, s', conn.id, Claims(conn.id, tenant, role) + Admits(conn.id, found.value))
      ensures r.UnknownRole? || r.BadCredentials? ==> conn.user == 0 && conn.role == role && conn.tenant == tenant
      ensures r.UnknownRole? || r.BadCredentials? ==>
        HubSystem.Interleaved(s, s', conn.id, Claims(conn.id, tenant, role) + [HubSystem.Reject(conn.id)])
    {
      if tenant == "" || role == "" {
        return Incomplete, s;
      }
      ghost var claimed := Claim(conn, tenant, role, s);
      if HubSystem.KnownRole(role) && found.Some? {
        s' := Admit(conn, found.value, claimed);
        HubSystem.Chained(s, claimed, s', conn.id, Claims(conn.id, tenant, role), Admits(conn.id, found.value));
        HubSystem.StaysReachable(s, s', conn.id, Claims(conn.id, tenant, role) + Admits(conn.id, found.value));
        r := Authenticated;
      } else {
        s' := Rejected(s, claimed, conn.id, tenant, role);
        HubSystem.StaysReachable(s, s', conn.id, Claims(conn.id, tenant, role) + [HubSystem.Reject(conn.id)]);
        r := if HubSystem.KnownRole(role) then BadCredentials else UnknownRole;
      }
    }

    // The unread messages in batches, until one is refused; nothing if they cannot be read.
    method SendOfflinePush(conn: Conn, role: string, user: Int64) returns (ok: bool, ghost unread: Option<seq<Message>>)
      requires messages.db.Valid() && HubSystem.KnownRole(role)
      modifies conn`sent, conn`offered
      ensures messages.db.reliable ==> unread.Some?
      ensures unread.Some? ==> OnceByTime(unread.value)
      ensures unread.Some? ==> forall m :: m in unread.value ==> m in messages.db.log && m.session in messages.db.sessions
      ensures unread.Some? && role == "visitor" ==> forall m :: m in messages.db.log && m.session in messages.db.sessions ==>
        (m in unread.value <==> !m.read && messages.db.sessions[m.session].visitor == user
                                && messages.db.sessions[m.session].status != Closed)
      ensures unread.Some? && role == "agent" ==> forall m :: m in messages.db.log && m.session in messages.db.sessions ==>
        (m in unread.value <==> !m.read && messages.db.sessions[m.session].agent == user
                                && messages.db.sessions[m.session].status != Closed)
      ensures unread.Some? ==> PushedSome(old(conn.sent), conn.sent, unread.value, ok)
      ensures unread.None? ==> !ok && conn.sent == old(conn.sent)
    {
      var found: Option<seq<Message>>;
      if role == VISITOR {
        found := messages.FindUnreadForVisitor(user);
      } else {
        found := messages.FindUnreadForAgent(user);
      }
      unread := found;
      if found.None? {
        return false, unread;
      }
      ok := SendBatches(conn, found.value);
    }

    method SendBatches(conn: Conn, unread: seq<Message>) returns (ok: bool)
      modifies conn`sent, conn`offered
      ensures PushedSome(old(conn.sent), conn.sent, unread, ok)
    {
      ghost var before := conn.sent;
      ghost var batches := Batches(unread);
      ok := true;
      var i := 0;
      ghost var k := 0;
      while i < |unread|
        invariant i == k * OFFLINE_PAGE_SIZE && k <= |batches| && ok
        invariant conn.sent == before + Pushes(batches[..k])
      {
        var end := i + OFFLINE_PAGE_SIZE;
        if end > |unread| {
          end := |unread|;
        }
        ok := conn.Send(OfflinePush(unread[i..end]));
        if !ok {
          PushedBatches(before, conn.sent, unread, k, ok);
          return;
        }
        assert batches[k] == unread[i..end] && batches[..k + 1] == batches[..k] + [batches[k]];
        assert Pushes(batches[..k + 1]) == Pushes(batches[..k]) + [OfflinePush(batches[k])];
        k := k + 1;
        i := i + OFFLINE_PAGE_SIZE;
      }
      PushedBatches(before, conn.sent, unread, k, ok);
    }
  }

  const OFFLINE_PAGE_SIZE := 50

  // What was sent are batches of the first unread messages in order, of all of them exactly if all
  // went well; a batch has fifty messages unless it is the last there is, and never none.
  ghost predicate PushedSome(before: seq<Payload>, after: seq<Payload>, unread: seq<Message>, ok: bool) {
    exists sent: seq<seq<Message>> ::
      && after == before + Pushes(sent)
      && Flatten(sent) <= unread && (ok <==> Flatten(sent) == unread)
      && (forall i :: 0 <= i < |sent| ==> 0 < |sent[i]| <= 50)
      && (forall i :: 0 <= i < |sent| && |sent[i]| < 50 ==> i == |sent| - 1 && ok)
  }

  lemma PushedBatches(before: seq<Payload>, after: seq<Payload>, unread: seq<Message>, k: nat, ok: bool)
    requires k <= |Batches(unread)| && (ok <==> k == |Batches(unread)|)
    requires after == before + Pushes(Batches(unread)[..k])
    ensures PushedSome(before, after, unread, ok)
  {
    var sent := Batches(unread)[..k];
    BatchesFlatten(unread, k);
    assert after == before + Pushes(sent) && Flatten(sent) == unread[..Cut(|unread|, k)];
  }

  function Pushes(batches: seq<seq<Message>>): (pushes: seq<Payload>)
    ensures |pushes| == |batches| && forall i :: 0 <= i < |batches| ==> pushes[i] == OfflinePush(batches[i])
  {
    seq(|batches|, i requires 0 <= i < |batches| => OfflinePush(batches[i]))
  }

  // Where the k-th batch of n messages begins.
  function Cut(n: nat, k: nat): (at: nat)
    ensures at <= n
  {
    if k * OFFLINE_PAGE_SIZE < n then k * OFFLINE_PAGE_SIZE else n
  }

  function Batches(messages: seq<Message>): seq<seq<Message>> {
    var n := |messages|;
    seq((n + OFFLINE_PAGE_SIZE - 1) / OFFLINE_PAGE_SIZE, k requires 0 <= k => messages[Cut(n, k)..Cut(n, k + 1)])
  }

  // Together the batches are the messages, in order; none is empty, and all but the last have fifty.
  lemma {:induction false} BatchesFlatten(messages: seq<Message>, k: nat)
    requires k <= |Batches(messages)|
    ensures Flatten(Batches(messages)[..k]) == messages[..Cut(|messages|, k)]
    ensures Cut(|messages|, k) == |messages| <==> k == |Batches(messages)|
    ensures forall i :: 0 <= i < k ==> 0 < |Batches(messages)[i]| <= 50
    ensures forall i :: 0 <= i < k && i + 1 < |Batches(messages)| ==> |Batches(messages)[i]| == 50
  {
    if k > 0 {
      var batches, n := Batches(messages), |messages|;
      BatchesFlatten(messages, k - 1);
      assert batches[..k][..k - 1] == batches[..k - 1] && batches[..k][k - 1] == batches[k - 1];
      assert messages[..Cut(n, k)] == messages[..Cut(n, k - 1)] + messages[Cut(n, k - 1)..Cut(n, k)];
    }
  }

  // What each setter does to the hub's state is a step of its machine.
  lemma BeginSteps(s: HubSystem.Sys, c: ConnId, tenant: string, role: string)
    requires HubSystem.At(s, c) && s.phase[c].Idle? && s.hub.who[c].user == 0 && tenant != "" && role != ""
    ensures var now := HubSystem.Become(s, c, s.hub.who[c].(tenant := tenant), HubSystem.Tenanted(role));
      HubSystem.Interleaved(s, now, c, [HubSystem.BeginAuth(c, tenant, role)])
  {
    HubSystem.TakesStep(s, HubSystem.BeginAuth(c, tenant, role), c);
  }

  lemma RoleSteps(s: HubSystem.Sys, c: ConnId, role: string)
    requires HubSystem.At(s, c) && s.phase[c] == HubSystem.Tenanted(role)
    ensures var now := HubSystem.Become(s, c, s.hub.who[c].(role := role), HubSystem.Claimed);
      HubSystem.Interleaved(s, now, c, [HubSystem.SetRole(c)])
  {
    HubSystem.TakesStep(s, HubSystem.SetRole(c), c);
  }

  lemma UserSteps(s: HubSystem.Sys, c: ConnId, user: Int64)
    requires HubSystem.At(s, c) && s.phase[c].Claimed? && HubSystem.KnownRole(s.hub.who[c].role) && user > 0
    ensures var now := HubSystem.Become(s, c, s.hub.who[c].(user := user), HubSystem.Known);
      HubSystem.Interleaved(s, now, c, [HubSystem.Identify(c, user)])
  {
    HubSystem.TakesStep(s, HubSystem.Identify(c, user), c);
  }

  lemma Rejected(s: HubSystem.Sys, claimed: HubSystem.Sys, c: ConnId, tenant: string, role: string) returns (end: HubSystem.Sys)
    requires HubSystem.Interleaved(s, claimed, c, Claims(c, tenant, role))
    requires HubSystem.At(claimed, c) && claimed.phase[c].Claimed?
    ensures HubSystem.Interleaved(s, end, c, Claims(c, tenant, role) + [HubSystem.Reject(c)])
    ensures end == claimed.(phase := claimed.phase[c := HubSystem.Idle])
  {
    end := HubSystem.Step(claimed, HubSystem.Reject(c));
    HubSystem.TakesStep(claimed, HubSystem.Reject(c), c);
    HubSystem.Chained(s, claimed, end, c, Claims(c, tenant, role), [HubSystem.Reject(c)]);
  }
}
