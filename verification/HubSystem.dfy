/**
 One node's hub under every interleaving of opens, authentications (failing, retried or
 overtaken by a removal), removals by any route, and a shutdown. The router's tables are what
 stops an identity from changing once a user id is set.
 */
module HubSystem {
  import opened UserKeys
  import opened HubModel

  /* ---- the router ---- */

  datatype ClientMsg =
    | Auth | Heartbeat | ChatSend | AgentOnline | AgentGone | SessionAccept | SessionClose | SessionList
    | SessionHistory | WaitingList | SatisfactionRate | VisitorUpdate | Typing | MessageRead | Unknown

  datatype Verdict = Unauthorized | InvalidRole | UnknownType | Dispatch

  predicate AuthRequired(m: ClientMsg) {
    !m.Auth? && !m.Heartbeat? && !m.Unknown?
  }

  predicate KnownRole(role: string) {
    role == "visitor" || role == "agent"
  }

  predicate Allowed(role: string, m: ClientMsg)
    requires KnownRole(role)
  {
    if role == VISITOR then
      m in {Heartbeat, ChatSend, SessionClose, SessionHistory, SatisfactionRate, VisitorUpdate, Typing, MessageRead}
    else
      m in {Heartbeat, ChatSend, AgentOnline, AgentGone, SessionAccept, SessionClose, SessionList, SessionHistory,
            WaitingList, Typing, MessageRead}
  }

  function Route(who: Ident, m: ClientMsg): Verdict {
    if AuthRequired(m) && who.user <= 0 then Unauthorized
    else if who.user > 0 && KnownRole(who.role) && !Allowed(who.role, m) then InvalidRole
    else if m.Unknown? then UnknownType
    else Dispatch
  }

  // A connection without a user reaches only auth and heartbeat. A visitor reaches everything but
  // auth and the agents' messages, an agent everything but auth and the visitors' two.
  lemma RouteDispatchesIff(who: Ident, m: ClientMsg)
    requires who.user > 0 ==> who.role == "visitor" || who.role == "agent"
    ensures who.user <= 0 ==> (Route(who, m) == Dispatch <==> m == Auth || m == Heartbeat)
    ensures who.user > 0 && who.role == "visitor" ==>
      (Route(who, m) == Dispatch <==>
       m !in {Auth, Unknown, AgentOnline, AgentGone, SessionAccept, SessionList, WaitingList})
    ensures who.user > 0 && who.role == "agent" ==>
      (Route(who, m) == Dispatch <==> m !in {Auth, Unknown, SatisfactionRate, VisitorUpdate})
    ensures Route(who, m) != Dispatch ==>
      Route(who, m) == if who.user > 0 then InvalidRole else if m == Unknown then UnknownType else Unauthorized
  {
  }

  /* ---- the machine ---- */

  // Where the connection's auth handler stands.
  datatype Phase =
    | Idle                  // not in the handler, no user set
    | Tenanted(role: string)// tenant set, role not yet
    | Claimed               // tenant and role set, credentials being checked
    | Known                 // user id set, BindUser not yet called
    | Ready                 // BindUser returned

  datatype Sys = Sys(hub: HubState, phase: map<ConnId, Phase>)

  datatype Action =
    | Open(c: ConnId)
    | BeginAuth(c: ConnId, tenant: string, role: string)
    | SetRole(c: ConnId)
    | Reject(c: ConnId)
    | Identify(c: ConnId, user: Int64)
    | BindUser(c: ConnId)
    | Remove(c: ConnId)
    | Forget

  const START := Sys(NEW_HUB, map[])

  predicate At(s: Sys, c: ConnId) {
    c in s.phase && c in s.hub.who
  }

  function Become(s: Sys, c: ConnId, who: Ident, phase: Phase): Sys {
    Sys(Named(s.hub, c, who), s.phase[c := phase])
  }

  function Step(s: Sys, a: Action): Sys {
    match a
    case Open(c) => if c == 0 || c in s.phase then s else Sys(Opened(s.hub, c), s.phase[c := Idle])
    case BeginAuth(c, tenant, role) =>
      // The router passes and the message is well-formed; the connection may be gone by now.
      if At(s, c) && (s.phase[c].Idle? || s.phase[c].Ready?)
        && Route(s.hub.who[c], Auth) == Dispatch && tenant != "" && role != ""
      then Become(s, c, s.hub.who[c].(tenant := tenant), Tenanted(role))
      else s
    case SetRole(c) =>
      if At(s, c) && s.phase[c].Tenanted? then Become(s, c, s.hub.who[c].(role := s.phase[c].role), Claimed) else s
    case Reject(c) =>
      if At(s, c) && s.phase[c].Claimed? then s.(phase := s.phase[c := Idle]) else s
    case Identify(c, user) =>
      if At(s, c) && s.phase[c].Claimed? && KnownRole(s.hub.who[c].role) && user > 0
      then Become(s, c, s.hub.who[c].(user := user), Known) else s
    case BindUser(c) =>
      if At(s, c) && s.phase[c].Known?
      then Sys(Bound(s.hub, c, s.hub.who[c].user, s.hub.who[c].role), s.phase[c := Ready]) else s
    case Remove(c) => s.(hub := Removed(s.hub, c))
    case Forget => s.(hub := Forgotten(s.hub))
  }

  /* ---- what holds in every run ---- */

  predicate IdentOk(who: Ident, phase: Phase) {
    if phase.Known? || phase.Ready? then who.user > 0 && KnownRole(who.role) && who.tenant != ""
    else who.user == 0 && (phase.Tenanted? || phase.Claimed? ==> who.tenant != "")
  }

  predicate Idents(s: Sys) {
    && s.hub.live <= s.hub.who.Keys && s.phase.Keys == s.hub.who.Keys
    && 0 !in s.phase
    && forall c :: c in s.phase ==> IdentOk(s.hub.who[c], s.phase[c])
  }

  predicate Serving(s: Sys, c: ConnId) {
    At(s, c) && c in s.hub.live && s.phase[c].Ready?
  }

  // The three maps agree: the indexes hold exactly the live, bound connections, each under the
  // keys its present identity yields, and no set is empty.
  ghost predicate Agree(s: Sys) {
    && (forall key, c :: Member(s.hub.users, key, c) <==> Serving(s, c) && key == KeyOf(s.hub.who[c]))
    && (forall tenant, c :: Member(s.hub.tenants, tenant, c) <==> Serving(s, c) && tenant == s.hub.who[c].tenant)
    && (forall key :: key in s.hub.users ==> s.hub.users[key] != {})
    && (forall tenant :: tenant in s.hub.tenants ==> s.hub.tenants[tenant] != {})
  }

  // Fillings balance emptyings, and an agent's offline path runs once per emptying.
  predicate KeyBalanced(h: HubState, key: string) {
    h.events[Filled(key)] == h.events[Emptied(key)] + h.events[Dropped(key)] + (if key in h.users then 1 else 0)
  }

  predicate OfflineBalanced(h: HubState, user: Int64) {
    && h.events[AgentOffline(user)] == h.events[Emptied(UserKey(user, AGENT))]
    && h.events[UnregisterDue(user)] == h.events[Emptied(UserKey(user, AGENT))] + h.events[Emptied(UserKey(user, VISITOR))]
  }

  ghost predicate Balanced(h: HubState) {
    (forall key :: KeyBalanced(h, key)) && (forall user: Int64 :: OfflineBalanced(h, user))
  }

  ghost predicate SysOk(s: Sys) {
    Idents(s) && Agree(s) && Balanced(s.hub)
  }

  lemma RemoveKeepsAgree(s: Sys, c: ConnId)
    requires Idents(s) && Agree(s)
    ensures Agree(Step(s, Remove(c)))
  {
    if c in s.hub.live {
      var who := s.hub.who[c];
      LeaveMembers(s.hub.users, KeyOf(who), c);
      LeaveMembers(s.hub.tenants, who.tenant, c);
    }
  }

  lemma BindKeepsAgree(s: Sys, c: ConnId)
    requires Idents(s) && Agree(s)
    ensures Agree(Step(s, BindUser(c)))
  {
    if At(s, c) && s.phase[c].Known? && c in s.hub.live {
      var who := s.hub.who[c];
      JoinMembers(s.hub.users, KeyOf(who), c);
      JoinMembers(s.hub.tenants, who.tenant, c);
    }
  }

  lemma EmptyingCounts(who: Ident, key: string, user: Int64)
    requires KnownRole(who.role)
    ensures Emptying(who)[Filled(key)] == 0 && Emptying(who)[Dropped(key)] == 0
    ensures Emptying(who)[Emptied(key)] == if key == KeyOf(who) then 1 else 0
    ensures Emptying(who)[AgentOffline(user)] == if user == who.user && who.role == AGENT then 1 else 0
    ensures Emptying(who)[UnregisterDue(user)] == if user == who.user then 1 else 0
  {
  }

  lemma KeysOfUser(who: Ident, user: Int64)
    requires KnownRole(who.role)
    ensures UserKey(user, AGENT) == KeyOf(who) <==> user == who.user && who.role == AGENT
    ensures UserKey(user, VISITOR) == KeyOf(who) <==> user == who.user && who.role == VISITOR
  {
    if UserKey(user, AGENT) == KeyOf(who) { KeysAreInjective(user, AGENT, who.user, who.role); }
    if UserKey(user, VISITOR) == KeyOf(who) { KeysAreInjective(user, VISITOR, who.user, who.role); }
  }

  lemma RemoveKeepsKey(h: HubState, c: ConnId, key: string)
    requires KeyBalanced(h, key) && Live(h, c) && (h.who[c].user > 0 ==> KnownRole(h.who[c].role))
    ensures KeyBalanced(Removed(h, c), key)
  {
    if Empties(h, c) { EmptyingCounts(h.who[c], key, 0); }
  }

  lemma RemoveKeepsOffline(h: HubState, c: ConnId, user: Int64)
    requires OfflineBalanced(h, user) && Live(h, c) && (h.who[c].user > 0 ==> KnownRole(h.who[c].role))
    ensures OfflineBalanced(Removed(h, c), user)
  {
    if Empties(h, c) {
      KeysOfUser(h.who[c], user);
      EmptyingCounts(h.who[c], UserKey(user, AGENT), user);
      EmptyingCounts(h.who[c], UserKey(user, VISITOR), user);
    }
  }

  lemma RemoveKeepsBalance(h: HubState, c: ConnId)
    requires Balanced(h) && (Live(h, c) && h.who[c].user > 0 ==> KnownRole(h.who[c].role))
    ensures Balanced(Removed(h, c))
  {
    if Live(h, c) {
      forall key ensures KeyBalanced(Removed(h, c), key) { RemoveKeepsKey(h, c, key); }
      forall user: Int64 ensures OfflineBalanced(Removed(h, c), user) { RemoveKeepsOffline(h, c, user); }
    }
  }

  // Setting identity fields of a connection that is not bound, and does not become so.
  lemma BecomeKeepsAgree(s: Sys, c: ConnId, who: Ident, phase: Phase)
    requires Idents(s) && Agree(s) && At(s, c) && !s.phase[c].Ready? && !phase.Ready?
    ensures Agree(Become(s, c, who, phase))
  {
    var s' := Become(s, c, who, phase);
    assert forall d :: Serving(s', d) <==> Serving(s, d);
  }

  lemma OpenKeepsAgree(s: Sys, c: ConnId)
    requires Idents(s) && Agree(s)
    ensures Agree(Step(s, Open(c)))
  {
    var s' := Step(s, Open(c));
    assert forall d :: Serving(s', d) <==> Serving(s, d);
  }

  lemma StepKeepsIdents(s: Sys, a: Action)
    requires Idents(s)
    ensures Idents(Step(s, a))
  {
    if a.BeginAuth? && At(s, a.c) { assert IdentOk(s.hub.who[a.c], s.phase[a.c]); }
    if a.BindUser? && At(s, a.c) { assert IdentOk(s.hub.who[a.c], s.phase[a.c]); }
  }

  lemma StepKeepsAgree(s: Sys, a: Action)
    requires Idents(s) && Agree(s)
    ensures Agree(Step(s, a))
  {
    var s' := Step(s, a);
    match a
    case Open(c) => OpenKeepsAgree(s, c);
    case BeginAuth(c, _, _) =>
      if s' != s {
        assert IdentOk(s.hub.who[c], s.phase[c]);
        BecomeKeepsAgree(s, c, s'.hub.who[c], s'.phase[c]);
      }
    case SetRole(c) => if s' != s { BecomeKeepsAgree(s, c, s'.hub.who[c], s'.phase[c]); }
    case Reject(c) =>
      if s' != s {
        BecomeKeepsAgree(s, c, s.hub.who[c], Idle);
        assert s'.hub.who == Become(s, c, s.hub.who[c], Idle).hub.who;
      }
    case Identify(c, _) => if s' != s { BecomeKeepsAgree(s, c, s'.hub.who[c], s'.phase[c]); }
    case BindUser(c) => BindKeepsAgree(s, c);
    case Remove(c) => RemoveKeepsAgree(s, c);
    case Forget =>
  }

  lemma StepKeepsBalance(s: Sys, a: Action)
    requires Idents(s) && Balanced(s.hub)
    ensures Balanced(Step(s, a).hub)
  {
    if a.Remove? {
      if a.c in s.hub.live { assert IdentOk(s.hub.who[a.c], s.phase[a.c]); }
      RemoveKeepsBalance(s.hub, a.c);
    } else if a.Forget? {
      ForgetKeepsBalance(s.hub);
    } else if a.BindUser? {
      BindKeepsBalance(s, a.c);
    } else {
      OtherKeepsIndex(s, a);
      SameBalance(s.hub, Step(s, a).hub);
    }
  }

  lemma OtherKeepsIndex(s: Sys, a: Action)
    requires !a.Remove? && !a.Forget? && !a.BindUser?
    ensures Step(s, a).hub.users == s.hub.users && Step(s, a).hub.events == s.hub.events
  {
  }

  lemma SameBalance(h: HubState, h': HubState)
    requires Balanced(h) && h'.users == h.users && h'.events == h.events
    ensures Balanced(h')
  {
    forall key ensures KeyBalanced(h', key) { assert KeyBalanced(h, key); }
    forall user: Int64 ensures OfflineBalanced(h', user) { assert OfflineBalanced(h, user); }
  }

  lemma BindKeepsBalance(s: Sys, c: ConnId)
    requires Balanced(s.hub)
    ensures Balanced(Step(s, BindUser(c)).hub)
  {
    var h := Step(s, BindUser(c)).hub;
    forall key ensures KeyBalanced(h, key) { assert KeyBalanced(s.hub, key); }
    forall user: Int64 ensures OfflineBalanced(h, user) { assert OfflineBalanced(s.hub, user); }
  }

  lemma ForgetKeepsBalance(h: HubState)
    requires Balanced(h)
    ensures Balanced(Forgotten(h))
  {
    forall key ensures KeyBalanced(Forgotten(h), key) { assert KeyBalanced(h, key); }
    forall user: Int64 ensures OfflineBalanced(Forgotten(h), user) { assert OfflineBalanced(h, user); }
  }

  lemma StepKeepsSys(s: Sys, a: Action)
    requires SysOk(s)
    ensures SysOk(Step(s, a))
  {
    StepKeepsIdents(s, a);
    StepKeepsAgree(s, a);
    StepKeepsBalance(s, a);
  }

  // A bound connection's identity, and one about to be bound, stays what it is.
  ghost predicate Frozen(a: Sys, b: Sys) {
    forall c :: At(a, c) && a.hub.who[c].user > 0 ==> At(b, c) && b.hub.who[c] == a.hub.who[c]
  }

  lemma StepFreezesOne(s: Sys, a: Action, c: ConnId)
    requires Idents(s) && At(s, c) && s.hub.who[c].user > 0
    ensures At(Step(s, a), c) && Step(s, a).hub.who[c] == s.hub.who[c]
  {
    assert IdentOk(s.hub.who[c], s.phase[c]);
    RouteDispatchesIff(s.hub.who[c], Auth);
  }

  lemma StepFreezes(s: Sys, a: Action)
    requires Idents(s)
    ensures Frozen(s, Step(s, a))
  {
    forall c | At(s, c) && s.hub.who[c].user > 0 ensures At(Step(s, a), c) && Step(s, a).hub.who[c] == s.hub.who[c] {
      StepFreezesOne(s, a, c);
    }
  }

  function Run(s: Sys, trace: seq<Action>): Sys {
    if trace == [] then s else Step(Run(s, trace[..|trace| - 1]), trace[|trace| - 1])
  }

  lemma {:induction false} RunKeepsSys(s: Sys, trace: seq<Action>)
    requires SysOk(s)
    ensures SysOk(Run(s, trace)) && Frozen(s, Run(s, trace))
  {
    if trace != [] {
      var before := Run(s, trace[..|trace| - 1]);
      RunKeepsSys(s, trace[..|trace| - 1]);
      StepKeepsSys(before, trace[|trace| - 1]);
      StepFreezes(before, trace[|trace| - 1]);
    }
  }

  /* ---- what every run guarantees ---- */

  ghost predicate Reachable(s: Sys) {
    exists trace :: s == Run(START, trace)
  }

  lemma ReachableOk(s: Sys)
    requires Reachable(s)
    ensures SysOk(s)
  {
    var trace :| s == Run(START, trace);
    RunKeepsSys(START, trace);
  }

  // Once a connection has a user, its user, role and tenant never change again, and its role is
  // one the router's tables know.
  lemma IdentityIsFrozen(s: Sys, trace: seq<Action>, c: ConnId)
    requires Reachable(s) && At(s, c) && s.hub.who[c].user > 0
    ensures At(Run(s, trace), c) && Run(s, trace).hub.who[c] == s.hub.who[c]
    ensures KnownRole(s.hub.who[c].role) && s.hub.who[c].tenant != ""
  {
    ReachableOk(s);
    RunKeepsSys(s, trace);
    assert IdentOk(s.hub.who[c], s.phase[c]);
  }

  // The connections, the user index and the tenant index always agree.
  lemma MapsAgree(s: Sys, c: ConnId, key: string, tenant: string)
    requires Reachable(s)
    ensures Member(s.hub.users, key, c) <==> Serving(s, c) && key == KeyOf(s.hub.who[c])
    ensures Member(s.hub.tenants, tenant, c) <==> Serving(s, c) && tenant == s.hub.who[c].tenant
    ensures key in s.hub.users ==> s.hub.users[key] != {}
    ensures tenant in s.hub.tenants ==> s.hub.tenants[tenant] != {}
  {
    ReachableOk(s);
  }

  lemma ServingIsNamed(s: Sys, c: ConnId)
    requires Reachable(s) && Serving(s, c)
    ensures s.hub.who[c].user > 0 && KnownRole(s.hub.who[c].role)
  {
    ReachableOk(s);
    assert IdentOk(s.hub.who[c], s.phase[c]);
  }

  // The connection is live and bound as this user in this role.
  predicate Serves(s: Sys, c: ConnId, user: Int64, role: string) {
    Serving(s, c) && s.hub.who[c].user == user && s.hub.who[c].role == role
  }

  // Whatever the user index lists under a user's key serves that user in that role, and all that do.
  lemma IndexServes(s: Sys, user: Int64, role: string)
    requires Reachable(s) && KnownRole(role)
    ensures forall c :: c in Found(s.hub.users, UserKey(user, role)) <==> Serves(s, c, user, role)
  {
    ReachableOk(s);
    forall c ensures c in Found(s.hub.users, UserKey(user, role)) <==> Serves(s, c, user, role) {
      assert c in Found(s.hub.users, UserKey(user, role)) <==> Member(s.hub.users, UserKey(user, role), c);
      if Serving(s, c) {
        assert IdentOk(s.hub.who[c], s.phase[c]);
        if UserKey(user, role) == KeyOf(s.hub.who[c]) { KeysAreInjective(user, role, s.hub.who[c].user, s.hub.who[c].role); }
      }
    }
  }

  // Removing a connection, at whatever point of its authentication, leaves no trace of it in any
  // map, now or later, and a second removal (Close after HandleClose or the reverse) does nothing.
  lemma RemovalIsFinal(s: Sys, c: ConnId, trace: seq<Action>, key: string)
    requires Reachable(s) && c in s.phase
    ensures var later := Run(Step(s, Remove(c)), trace);
      && c !in later.hub.live && !Member(later.hub.users, key, c) && !Member(later.hub.tenants, key, c)
      && Step(later, Remove(c)) == later
  {
    ReachableOk(s);
    StepKeepsSys(s, Remove(c));
    StaysRemoved(Step(s, Remove(c)), trace, c);
    RunKeepsSys(Step(s, Remove(c)), trace);
  }

  lemma {:induction false} StaysRemoved(s: Sys, trace: seq<Action>, c: ConnId)
    requires c in s.phase && c !in s.hub.live
    ensures c in Run(s, trace).phase && c !in Run(s, trace).hub.live
  {
    if trace != [] {
      StaysRemoved(s, trace[..|trace| - 1], c);
    }
  }

  // Per user and role: sets that appeared = sets that emptied + sets dropped by a shutdown + (1 if
  // there is one now); an agent's offline path ran exactly once per emptying, and the user was
  // given up in the registry exactly once per emptying in either role.
  lemma LastConnectionEventsBalance(s: Sys, user: Int64, role: string)
    requires Reachable(s)
    ensures var key := UserKey(user, role);
      s.hub.events[Filled(key)]
        == s.hub.events[Emptied(key)] + s.hub.events[Dropped(key)] + (if key in s.hub.users then 1 else 0)
    ensures s.hub.events[AgentOffline(user)] == s.hub.events[Emptied(UserKey(user, AGENT))]
    ensures s.hub.events[UnregisterDue(user)]
         == s.hub.events[Emptied(UserKey(user, AGENT))] + s.hub.events[Emptied(UserKey(user, VISITOR))]
  {
    ReachableOk(s);
    assert KeyBalanced(s.hub, UserKey(user, role)) && OfflineBalanced(s.hub, user);
  }

  /* ---- what a shutdown throws away ---- */

  lemma DropsCount(index: Index, key: string)
    ensures Drops(index)[Dropped(key)] == if key in index then 1 else 0
  {
    assert Dropped(key) in Drops(index) <==> key in index;
  }

  lemma DropsElse(index: Index, key: string)
    ensures Drops(index)[Filled(key)] == 0 && Drops(index)[Emptied(key)] == 0
  {
  }

  lemma StepDrops(s: Sys, a: Action, key: string)
    ensures Step(s, a).hub.events[Dropped(key)]
         == s.hub.events[Dropped(key)] + (if a.Forget? && key in s.hub.users then 1 else 0)
  {
    if a.Forget? { DropsCount(s.hub.users, key); }
  }

  // A shutdown at step k throws away a set of connections that is there.
  predicate DropsAt(trace: seq<Action>, key: string, k: nat)
    requires k < |trace|
  {
    trace[k].Forget? && key in Run(START, trace[..k]).hub.users
  }

  function DropsBy(trace: seq<Action>, key: string, n: nat): nat
    requires n <= |trace|
  {
    Run(START, trace[..n]).hub.events[Dropped(key)]
  }

  lemma NextDrops(trace: seq<Action>, key: string, n: nat)
    requires n < |trace|
    ensures DropsBy(trace, key, n + 1) == DropsBy(trace, key, n) + (if DropsAt(trace, key, n) then 1 else 0)
  {
    assert trace[..n + 1][..n] == trace[..n];
    StepDrops(Run(START, trace[..n]), trace[n], key);
  }

  lemma NoneDroppedAtFirst(trace: seq<Action>, key: string)
    ensures DropsBy(trace, key, 0) == 0
  {
    assert trace[..0] == [];
  }

  lemma {:induction false} DroppedIff(trace: seq<Action>, key: string, n: nat)
    requires n <= |trace|
    ensures DropsBy(trace, key, n) > 0 <==> exists k :: 0 <= k < n && DropsAt(trace, key, k)
  {
    if n == 0 {
      NoneDroppedAtFirst(trace, key);
    } else {
      var m := n - 1;
      DroppedIff(trace, key, m);
      NextDrops(trace, key, m);
      assert DropsBy(trace, key, n) > 0 <==> DropsBy(trace, key, m) > 0 || DropsAt(trace, key, m);
    }
  }

  // Fillings are emptyings + (1 if bound) exactly in the runs in which no shutdown threw away a set
  // of that user and role.
  lemma BalanceIsExactIff(trace: seq<Action>, user: Int64, role: string)
    ensures var h, key := Run(START, trace).hub, UserKey(user, role);
      h.events[Filled(key)] == h.events[Emptied(key)] + (if key in h.users then 1 else 0)
      <==> forall k :: 0 <= k < |trace| ==> !DropsAt(trace, key, k)
  {
    var key := UserKey(user, role);
    assert trace[..|trace|] == trace;
    DroppedIff(trace, key, |trace|);
    LastConnectionEventsBalance(Run(START, trace), user, role);
  }

  // Connection 1 has set its identity and is about to be bound as visitor 7.
  lemma AboutToBind() returns (s: Sys)
    ensures Reachable(s) && At(s, 1) && s.phase[1] == Known && s.hub.who[1] == Ident(7, VISITOR, "t")
    ensures s.hub.live == {1} && s.hub.users == map[] && s.hub.events == multiset{}
  {
    assert Run(START, []) == START;
    s := Then(START, Open(1));
    s := Then(s, BeginAuth(1, "t", VISITOR));
    s := Then(s, SetRole(1));
    s := Then(s, Identify(1, 7));
  }

  // The shutdown has closed the connections it knew, this one is bound, and then the maps are
  // thrown away: a set has appeared, none has emptied, and none is there.
  lemma DroppedByShutdown() returns (s: Sys)
    ensures Reachable(s) && UserKey(7, VISITOR) !in s.hub.users
    ensures s.hub.events[Filled(UserKey(7, VISITOR))] == 1 && s.hub.events[Emptied(UserKey(7, VISITOR))] == 0
  {
    var key := UserKey(7, VISITOR);
    s := AboutToBind();
    s := Then(s, BindUser(1));
    assert s.hub.events == multiset{} + multiset{Filled(key)} + multiset{RegisterDue(7)};
    DropsCount(s.hub.users, key);
    DropsElse(s.hub.users, key);
    s := Then(s, Forget);
  }

  lemma Then(s: Sys, a: Action) returns (s': Sys)
    requires Reachable(s)
    ensures Reachable(s') && s' == Step(s, a)
  {
    var before :| s == Run(START, before);
    s' := Step(s, a);
    assert (before + [a])[..|before|] == before;
    assert s' == Run(START, before + [a]);
  }

  /* ---- one handler among many ---- */

  // A step of the auth handler of connection c.
  predicate AuthStep(a: Action, c: ConnId) {
    (a.BeginAuth? || a.SetRole? || a.Reject? || a.Identify? || a.BindUser?) && a.c == c
  }

  function Own(trace: seq<Action>, c: ConnId): seq<Action> {
    if trace == [] then []
    else
      var last := trace[|trace| - 1];
      Own(trace[..|trace| - 1], c) + (if AuthStep(last, c) then [last] else [])
  }

  // The auth handler of c takes its `own` steps from s to s', with any others before, between and after.
  ghost predicate Interleaved(s: Sys, s': Sys, c: ConnId, own: seq<Action>) {
    exists trace :: s' == Run(s, trace) && Own(trace, c) == own
  }

  lemma {:induction false} RunsCompose(s: Sys, first: seq<Action>, next: seq<Action>)
    ensures Run(s, first + next) == Run(Run(s, first), next)
  {
    if next == [] {
      assert first + next == first;
    } else {
      var front := next[..|next| - 1];
      RunsCompose(s, first, front);
      assert (first + next)[..|first + next| - 1] == first + front;
    }
  }

  lemma {:induction false} OwnAppend(first: seq<Action>, next: seq<Action>, c: ConnId)
    ensures Own(first + next, c) == Own(first, c) + Own(next, c)
  {
    if next == [] {
      assert first + next == first;
    } else {
      var front := next[..|next| - 1];
      OwnAppend(first, front, c);
      assert (first + next)[..|first + next| - 1] == first + front;
    }
  }

  lemma TakesStep(s: Sys, a: Action, c: ConnId)
    ensures Interleaved(s, Step(s, a), c, if AuthStep(a, c) then [a] else [])
  {
    assert [a][..0] == [];
    assert Own([a], c) == if AuthStep(a, c) then [a] else [];
    assert Run(s, [a]) == Step(s, a);
  }

  lemma Chained(a: Sys, b: Sys, d: Sys, c: ConnId, first: seq<Action>, next: seq<Action>)
    requires Interleaved(a, b, c, first) && Interleaved(b, d, c, next)
    ensures Interleaved(a, d, c, first + next)
  {
    var x :| b == Run(a, x) && Own(x, c) == first;
    var y :| d == Run(b, y) && Own(y, c) == next;
    RunsCompose(a, x, y);
    OwnAppend(x, y, c);
    assert d == Run(a, x + y) && Own(x + y, c) == first + next;
  }

  lemma StepSparesAuth(s: Sys, a: Action, c: ConnId)
    requires At(s, c) && !AuthStep(a, c)
    ensures At(Step(s, a), c) && Step(s, a).phase[c] == s.phase[c] && Step(s, a).hub.who[c] == s.hub.who[c]
  {
  }

  // What handlers do together keeps the hub's state one its machine reaches.
  lemma StaysReachable(s: Sys, s': Sys, c: ConnId, own: seq<Action>)
    requires Reachable(s) && Interleaved(s, s', c, own)
    ensures Reachable(s')
  {
    var before :| s == Run(START, before);
    var trace :| s' == Run(s, trace) && Own(trace, c) == own;
    RunsCompose(START, before, trace);
    assert s' == Run(START, before + trace);
  }

  lemma {:induction false} RunSparesAuth(s: Sys, trace: seq<Action>, c: ConnId)
    requires At(s, c) && Own(trace, c) == []
    ensures At(Run(s, trace), c)
    ensures Run(s, trace).phase[c] == s.phase[c] && Run(s, trace).hub.who[c] == s.hub.who[c]
  {
    if trace != [] {
      var front, last := trace[..|trace| - 1], trace[|trace| - 1];
      assert !AuthStep(last, c);
      RunSparesAuth(s, front, c);
      StepSparesAuth(Run(s, front), last, c);
    }
  }

  // Others can remove the connection, but not touch its identity or where its handler stands.
  lemma OthersSpareAuth(s: Sys, s': Sys, c: ConnId)
    requires At(s, c) && Interleaved(s, s', c, [])
    ensures At(s', c) && s'.phase[c] == s.phase[c] && s'.hub.who[c] == s.hub.who[c]
  {
    var trace :| s' == Run(s, trace) && Own(trace, c) == [];
    RunSparesAuth(s, trace, c);
  }
}
