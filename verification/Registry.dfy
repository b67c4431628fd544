/**
 The shared registry that says which node a user's connections are on. Entries expire; any
 node may extend any entry, but only an absent entry, or one's own, can be written.
 */
module Registry {
  import opened Tables
  import opened UserKeys

  type NodeId = nat

  datatype Lease = Lease(node: NodeId, deadline: nat)

  datatype Store = Store(now: nat, ttl: nat, leases: map<Int64, Lease>)

  // GET: an expired key is absent.
  function Owner(s: Store, user: Int64): Option<NodeId> {
    if user in s.leases && s.now < s.leases[user].deadline then Some(s.leases[user].node) else None
  }

  // The register script: SET with a TTL when the key is absent or already this node's.
  function Registered(s: Store, n: NodeId, user: Int64): Store {
    if Owner(s, user) == None || Owner(s, user) == Some(n)
    then s.(leases := s.leases[user := Lease(n, s.now + s.ttl)]) else s
  }

  // The unregister script: DEL when the key is this node's.
  function Unregistered(s: Store, n: NodeId, user: Int64): Store {
    if Owner(s, user) == Some(n) then s.(leases := s.leases - {user}) else s
  }

  // EXPIRE: extends an entry that is there, whoever owns it.
  function Refreshed(s: Store, user: Int64): Store {
    if Owner(s, user) == None then s
    else s.(leases := s.leases[user := s.leases[user].(deadline := s.now + s.ttl)])
  }

  function AllRefreshed(s: Store, users: seq<Int64>): Store {
    if users == [] then s else Refreshed(AllRefreshed(s, users[..|users| - 1]), users[|users| - 1])
  }

  datatype Action =
    | Register(n: NodeId, user: Int64)
    | Unregister(n: NodeId, user: Int64)
    | Refresh(users: seq<Int64>)
    | Tick(d: nat)

  function Step(s: Store, a: Action): Store {
    match a
    case Register(n, user) => Registered(s, n, user)
    case Unregister(n, user) => Unregistered(s, n, user)
    case Refresh(users) => AllRefreshed(s, users)
    case Tick(d) => s.(now := s.now + d)
  }

  function Run(s: Store, trace: seq<Action>): Store {
    if trace == [] then s else Step(Run(s, trace[..|trace| - 1]), trace[|trace| - 1])
  }

  function Extended(s: Store, user: Int64, users: seq<Int64>): Lease
    requires user in s.leases
  {
    if user in users && Owner(s, user).Some? then Lease(s.leases[user].node, s.now + s.ttl) else s.leases[user]
  }

  // A refresh moves no entry to another node; it only postpones the deadlines of entries that
  // are there.
  lemma {:induction false} RefreshKeepsOwners(s: Store, users: seq<Int64>, user: Int64)
    requires s.ttl > 0
    ensures var s' := AllRefreshed(s, users);
      && s'.now == s.now && s'.ttl == s.ttl && Owner(s', user) == Owner(s, user)
      && (user in s'.leases <==> user in s.leases)
      && (user in s.leases ==> s'.leases[user] == Extended(s, user, users))
  {
    if users != [] {
      var front := users[..|users| - 1];
      RefreshKeepsOwners(s, front, user);
      RefreshKeepsOwners(s, front, users[|users| - 1]);
      assert users == front + [users[|users| - 1]];
    }
  }

  // An entry goes only by its owner's unregister or by time passing.
  predicate Releases(s: Store, a: Action, user: Int64, m: NodeId) {
    a == Unregister(m, user) || (a.Tick? && user in s.leases && s.now + a.d >= s.leases[user].deadline)
  }

  lemma OwnerAfterStep(s: Store, a: Action, user: Int64, m: NodeId)
    requires s.ttl > 0 && Owner(s, user) == Some(m)
    ensures Owner(Step(s, a), user) == if Releases(s, a, user, m) then None else Some(m)
    ensures Step(s, a).ttl == s.ttl
  {
    if a.Refresh? { RefreshKeepsOwners(s, a.users, user); }
  }

  lemma {:induction false} TtlStays(s: Store, trace: seq<Action>)
    requires s.ttl > 0
    ensures Run(s, trace).ttl == s.ttl
  {
    if trace != [] {
      var before := Run(s, trace[..|trace| - 1]);
      TtlStays(s, trace[..|trace| - 1]);
      if trace[|trace| - 1].Refresh? { RefreshKeepsOwners(before, trace[|trace| - 1].users, 0); }
    }
  }

  // At step k of the run the entry of m went, by m's own unregister or by expiry.
  predicate ReleasedAt(s: Store, trace: seq<Action>, user: Int64, m: NodeId, k: nat)
    requires k < |trace|
  {
    && Owner(Run(s, trace[..k]), user) == Some(m)
    && Releases(Run(s, trace[..k]), trace[k], user, m)
    && Owner(Run(s, trace[..k + 1]), user) == None
  }

  lemma {:induction false} LosingTakesARelease(s: Store, trace: seq<Action>, user: Int64, m: NodeId)
    requires s.ttl > 0 && Owner(s, user) == Some(m) && Owner(Run(s, trace), user) != Some(m)
    ensures exists k :: 0 <= k < |trace| && ReleasedAt(s, trace, user, m, k)
  {
    if trace != [] {
      var front, last := trace[..|trace| - 1], trace[|trace| - 1];
      if Owner(Run(s, front), user) == Some(m) {
        TtlStays(s, front);
        OwnerAfterStep(Run(s, front), last, user, m);
        assert trace[..|front| + 1] == trace;
        assert ReleasedAt(s, trace, user, m, |front|);
      } else {
        LosingTakesARelease(s, front, user, m);
        var k :| 0 <= k < |front| && ReleasedAt(s, front, user, m, k);
        assert trace[..k] == front[..k] && trace[..k + 1] == front[..k + 1];
        assert ReleasedAt(s, trace, user, m, k);
      }
    }
  }

  // Over any run, a user moves from one node to another only through an absent entry, released
  // by the first node's own unregister or by expiry, before the run ends.
  lemma OwnershipPassesThroughAbsence(s: Store, trace: seq<Action>, user: Int64, m: NodeId, n: NodeId)
    requires s.ttl > 0 && m != n
    requires Owner(s, user) == Some(m) && Owner(Run(s, trace), user) == Some(n)
    ensures exists k :: 0 <= k && k + 1 < |trace| && ReleasedAt(s, trace, user, m, k)
  {
    LosingTakesARelease(s, trace, user, m);
    var k :| 0 <= k < |trace| && ReleasedAt(s, trace, user, m, k);
    assert trace[..|trace|] == trace;
  }

  // No entry outlives its TTL: every store reached from an empty one is sane.
  predicate Sane(s: Store) {
    s.ttl > 0 && forall user :: user in s.leases ==> s.leases[user].deadline <= s.now + s.ttl
  }

  lemma {:induction false} RunKeepsSane(s: Store, trace: seq<Action>)
    requires Sane(s)
    ensures Sane(Run(s, trace))
  {
    if trace != [] {
      var before, last := Run(s, trace[..|trace| - 1]), trace[|trace| - 1];
      RunKeepsSane(s, trace[..|trace| - 1]);
      if last.Refresh? {
        RefreshKeepsOwners(before, last.users, 0);
        forall user | user in Step(before, last).leases
          ensures Step(before, last).leases[user].deadline <= before.now + before.ttl
        {
          RefreshKeepsOwners(before, last.users, user);
        }
      }
    }
  }

  lemma {:induction false} LeaseKept(s: Store, trace: seq<Action>, user: Int64, m: NodeId)
    requires Sane(s) && Owner(s, user) == Some(m)
    requires Unregister(m, user) !in trace && Run(s, trace).now < s.leases[user].deadline
    ensures var s' := Run(s, trace);
      Owner(s', user) == Some(m) && s.leases[user].deadline <= s'.leases[user].deadline && s.now <= s'.now
  {
    if trace != [] {
      var front, last := trace[..|trace| - 1], trace[|trace| - 1];
      var before := Run(s, front);
      TtlStays(s, front);
      assert last in trace;
      if last.Refresh? { RefreshKeepsOwners(before, last.users, user); }
      LeaseKept(s, front, user, m);
      OwnerAfterStep(before, last, user, m);
    }
  }

  // In any run from an empty registry: while the clock stays below an owner's deadline and the
  // owner does not unregister, the owner stays, whatever the others try; refreshes only help.
  lemma LeaseHolds(ttl: nat, before: seq<Action>, trace: seq<Action>, user: Int64, m: NodeId)
    requires ttl > 0
    requires var s := Run(Store(0, ttl, map[]), before);
      Owner(s, user) == Some(m) && Unregister(m, user) !in trace && Run(s, trace).now < s.leases[user].deadline
    ensures var s := Run(Store(0, ttl, map[]), before);
      Owner(Run(s, trace), user) == Some(m) && s.leases[user].deadline <= Run(s, trace).leases[user].deadline
  {
    RunKeepsSane(Store(0, ttl, map[]), before);
    LeaseKept(Run(Store(0, ttl, map[]), before), trace, user, m);
  }

  /* ---- the store and the distributor ---- */

  class Redis {
    var now: nat
    const ttl: nat
    var leases: map<Int64, Lease>

    constructor (ttl: nat)
      requires ttl > 0
      ensures View() == Store(0, ttl, map[])
    {
      now, leases := 0, map[];
      this.ttl := ttl;
    }

    ghost function View(): Store
      reads this
    {
      Store(now, ttl, leases)
    }

    method Get(user: Int64) returns (node: Option<NodeId>)
      ensures node == Owner(View(), user)
    {
      node := if user in leases && now < leases[user].deadline then Some(leases[user].node) else None;
    }

    method Expire(user: Int64)
      modifies this`leases
      ensures View() == Refreshed(old(View()), user)
    {
      if user in leases && now < leases[user].deadline {
        leases := leases[user := Lease(leases[user].node, now + ttl)];
      }
    }
  }

  class Distributor {
    const nodeID: NodeId
    const redis: Redis

    constructor (nodeID: NodeId, redis: Redis)
      ensures this.nodeID == nodeID && this.redis == redis
    {
      this.nodeID, this.redis := nodeID, redis;
    }

    // Takes the user for this node unless another node holds an unexpired entry.
    method RegisterUser(user: Int64)
      requires redis.ttl > 0
      modifies redis`leases
      ensures redis.View() == Registered(old(redis.View()), nodeID, user)
      ensures Owner(redis.View(), user) == if Owner(old(redis.View()), user).Some?
        then Owner(old(redis.View()), user) else Some(nodeID)
      ensures redis.leases ==
        if user in old(redis.leases) && redis.now < old(redis.leases)[user].deadline && old(redis.leases)[user].node != nodeID
        then old(redis.leases) else old(redis.leases)[user := Lease(nodeID, redis.now + redis.ttl)]
    {
      var current := redis.Get(user);
      if current == None || current == Some(nodeID) {
        redis.leases := redis.leases[user := Lease(nodeID, redis.now + redis.ttl)];
      }
    }

    // Gives the user up only if this node holds it.
    method UnregisterUser(user: Int64)
      modifies redis`leases
      ensures redis.View() == Unregistered(old(redis.View()), nodeID, user)
      ensures Owner(redis.View(), user) == if Owner(old(redis.View()), user) == Some(nodeID)
        then None else Owner(old(redis.View()), user)
      ensures redis.leases ==
        if user in old(redis.leases) && redis.now < old(redis.leases)[user].deadline && old(redis.leases)[user].node == nodeID
        then old(redis.leases) - {user} else old(redis.leases)
    {
      var current := redis.Get(user);
      if current == Some(nodeID) {
        redis.leases := redis.leases - {user};
      }
    }

    method RefreshUsers(users: seq<Int64>)
      requires redis.ttl > 0
      modifies redis`leases
      ensures redis.View() == AllRefreshed(old(redis.View()), users)
      ensures forall user :: Owner(redis.View(), user) == Owner(old(redis.View()), user)
      ensures forall user :: user in redis.leases <==> user in old(redis.leases)
      ensures forall user :: user in redis.leases ==>
        redis.leases[user] == if user in users && redis.now < old(redis.leases)[user].deadline
          then Lease(old(redis.leases)[user].node, redis.now + redis.ttl) else old(redis.leases)[user]
    {
      ghost var before := redis.View();
      var i := 0;
      while i < |users|
        invariant 0 <= i <= |users|
        invariant redis.View() == AllRefreshed(before, users[..i])
      {
        redis.Expire(users[i]);
        assert users[..i + 1][..i] == users[..i];
        i := i + 1;
      }
      assert users[..|users|] == users;
      forall user: Int64
        ensures Owner(AllRefreshed(before, users), user) == Owner(before, user)
        ensures user in AllRefreshed(before, users).leases <==> user in before.leases
        ensures user in before.leases ==> AllRefreshed(before, users).leases[user] == Extended(before, user, users)
      {
        RefreshKeepsOwners(before, users, user);
      }
    }

    method GetUserNode(user: Int64) returns (node: Option<NodeId>)
      ensures node == Owner(redis.View(), user)
      ensures node.Some? <==> user in redis.leases && redis.now < redis.leases[user].deadline
      ensures node.Some? ==> node.value == redis.leases[user].node
    {
      node := redis.Get(user);
    }
  }
}
