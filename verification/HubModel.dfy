/**
 One node's hub as a value: the live connections, every connection's identity, the user and
 tenant indexes, and what happened to them. The functions are what the hub's methods do under
 the lock; HubServer.dfy proves its methods against them.
 */
module HubModel {
  import opened UserKeys

  type ConnId = nat

  datatype Ident = Ident(user: Int64, role: string, tenant: string)

  const ANONYMOUS := Ident(0, "", "")

  // Filled and Emptied: a user's set of connections appears or disappears. Dropped: it is
  // thrown away by a shutdown. AgentOffline: the agent offline path is started. RegisterDue and
  // UnregisterDue: where the node has a distributor, its RegisterUser or UnregisterUser is started.
  datatype Event =
    | Filled(key: string)
    | Emptied(key: string)
    | Dropped(key: string)
    | AgentOffline(user: Int64)
    | RegisterDue(user: Int64)
    | UnregisterDue(user: Int64)

  type Index = map<string, set<ConnId>>

  datatype HubState = HubState(live: set<ConnId>, who: map<ConnId, Ident>, users: Index, tenants: Index,
                               events: multiset<Event>)

  const NEW_HUB := HubState({}, map[], map[], map[], multiset{})

  predicate Member(index: Index, key: string, c: ConnId) {
    key in index && c in index[key]
  }

  function Found(index: Index, key: string): set<ConnId> {
    if key in index then index[key] else {}
  }

  function Join(index: Index, key: string, c: ConnId): Index {
    index[key := (if key in index then index[key] else {}) + {c}]
  }

  function Leave(index: Index, key: string, c: ConnId): Index {
    if key !in index then index
    else if index[key] - {c} == {} then index - {key}
    else index[key := index[key] - {c}]
  }

  function KeyOf(who: Ident): string {
    UserKey(who.user, who.role)
  }

  function Opened(h: HubState, c: ConnId): HubState {
    h.(live := h.live + {c}, who := h.who[c := ANONYMOUS])
  }

  function Named(h: HubState, c: ConnId, who: Ident): HubState {
    h.(who := h.who[c := who])
  }

  // Every live connection has an identity; see HubSystem.Idents.
  predicate Live(h: HubState, c: ConnId) {
    c in h.live && c in h.who
  }

  function Bound(h: HubState, c: ConnId, user: Int64, role: string): HubState {
    if !Live(h, c) then h
    else
      var key, tenant := UserKey(user, role), h.who[c].tenant;
      h.(users := Join(h.users, key, c),
         tenants := if tenant != "" then Join(h.tenants, tenant, c) else h.tenants,
         events := h.events + Binding(h.users, key) + multiset{RegisterDue(user)})
  }

  function Binding(users: Index, key: string): multiset<Event> {
    if key in users then multiset{} else multiset{Filled(key)}
  }

  // The removal empties the user's set.
  predicate Empties(h: HubState, c: ConnId) {
    Live(h, c) && h.who[c].user > 0 && KeyOf(h.who[c]) in h.users && h.users[KeyOf(h.who[c])] - {c} == {}
  }

  function Removed(h: HubState, c: ConnId): HubState {
    if !Live(h, c) then h
    else
      var who := h.who[c];
      h.(live := h.live - {c},
         users := if who.user > 0 then Leave(h.users, KeyOf(who), c) else h.users,
         tenants := if who.tenant != "" then Leave(h.tenants, who.tenant, c) else h.tenants,
         events := if Empties(h, c) then h.events + Emptying(who) else h.events)
  }

  function Emptying(who: Ident): multiset<Event> {
    var offline := if who.role == AGENT then multiset{AgentOffline(who.user)} else multiset{};
    multiset{Emptied(KeyOf(who))} + multiset{UnregisterDue(who.user)} + offline
  }

  // The end of a shutdown: all three maps are replaced by empty ones.
  function Forgotten(h: HubState): HubState {
    h.(live := {}, users := map[], tenants := map[], events := h.events + Drops(h.users))
  }

  function Drops(index: Index): multiset<Event> {
    multiset(set key | key in index :: Dropped(key))
  }

  lemma JoinMembers(index: Index, key: string, c: ConnId)
    ensures forall k, d :: Member(Join(index, key, c), k, d) <==> Member(index, k, d) || (k == key && d == c)
    ensures forall k :: k in Join(index, key, c) <==> k in index || k == key
  {
  }

  lemma LeaveMembers(index: Index, key: string, c: ConnId)
    ensures forall k, d :: Member(Leave(index, key, c), k, d) <==> Member(index, k, d) && !(k == key && d == c)
  {
    forall k, d ensures Member(Leave(index, key, c), k, d) <==> Member(index, k, d) && !(k == key && d == c) {
      if k == key && Member(index, k, d) && d != c { assert d in index[key] - {c}; }
    }
  }
}
