# ccsim-svr: verified model

Dafny model of the customer-service chat server: visitors and agents talk over WebSocket
connections to any number of nodes, which share one database and one Redis. The project verifies
with `dafny verify dfyconfig.toml` (Dafny 4.11).

## What is modelled

Three state machines, each over arbitrarily interleaved steps, and under them the server's own
objects as classes. The services, the chat handler and the auth handler are proved to take steps of
the machines of the tables and of the hub; the hub's methods are proved against the functions those
steps are made of.

1. **The tables** (`ChatServer`, invariants in `ChatOrder`, `ChatSessions` and `ChatIds`, theorems
   in `ChatTheorems`, `Effects`, `OpenSessions`, `UnreadCounter` and `History`). Sessions, messages under the
   unique index (session, seq_num), and the two id counters. A send is three steps apart: read the
   maximum number, take an id, commit against the index or abort. So is the creation of a session:
   look for an open one, take an id, commit. Accept, reset, close, mark-read and unread counting are
   further steps. Nothing assumes that transactions are serialised; gap-free numbering follows from
   the index and from what every pending reader still holds.
2. **The peer cache** (`PeerCache`), beside the machine of the tables. Every node caches (visitor,
   agent) per session, nobody tells other nodes about changes, fills may carry values read long ago, and a create fills the cache
   before its transaction commits or rolls back. `SessionService` keeps what every step of this
   machine keeps, but is not itself shown to be a run of it.
3. **The hub** (`HubModel`, `HubSystem`), one node's connections with their user and tenant
   indexes, under opens, authentications (failing, retried, overtaken by a removal), removals and a
   shutdown. `Delivery` joins many hubs by a bus, whose packets the hub's methods publish and handle;
   `Relay` joins the two methods at its ends; `Registry` is the shared table of who is where.

`Stores`, `Services`, `HubServer`, `Routing`, `Authentication`, `ChatHandling` and the classes of
`Registry` are the source's repositories, services, hub, connection, router, handlers and
distributor. A `Database` carries the machine's state as a ghost field and `Valid()` says its tables are
the tables of a *reachable* state, so every theorem about runs applies to what the methods read
and write. `Interference.Interleaved(s, s', t, own)` says that handler t took exactly the steps
`own` from s to s', with any steps of others before, between and after; the services and the chat
handler promise this of the machine of the tables, the auth handler promises the same of the
machine of the hub.

`Hub.events` is the history of what a hub's index went through, of the offline paths it started and
of the registrations and unregistrations that are due where the node has a distributor.

`OthersRun` marks the places where other handlers run. Its body takes no step, which is one of the
runs its contract allows; callers see the contract only, and the contract allows every run of the
machine that leaves the caller's own task alone.

Any statement may fail. `Database.reliable` is a constant of the database that says none
does; contracts use it to state what then must succeed. Ghost parameters named `t` number the handlers.

### Assumptions

- Messages on one connection are handled one at a time.
- A commit is atomic and a read sees committed rows; a statement outside a transaction is its own.
  Transactions run at the database's default isolation (repo/tx.go:23-28): others go on between
  their statements.
- The clock that stamps created_at is a parameter and may say anything.
- Node ids are distinct; connection ids are non-zero and unique across nodes.
- Steps are those reachable from handlers: `SessionRepo.Update`, `SessionRepo.UpdateStatus`,
  `Hub.UnbindUser` and `BatchMarkAsRead` have no caller among the handlers and are not steps.
- A hub method is one critical section; taking the list of targets and sending to them is one step.
- The visitor or agent lookup of an authentication answers a positive id or fails, and reading
  the agent that accepts succeeds or fails; both answers are parameters. So is the rate limiter's.
- The bus neither loses nor repeats a packet and delivers in any order. Redis commands do not fail
  and its time-to-live is positive (90 seconds in config.yaml); what the source does with a Redis
  error (ws/hub.go:377-388, 547-549 and 596-599) is to log it or to take the user for unknown.
- Row and user ids are int64; sequence numbers and message ids are not bounded.

### Where the code does less than one might hope

- A visitor can have two open sessions. service/session.go:41-66 inserts after any error of the
  lookup, not only after "not found" (`OpenSessions.TwoOpenSessions`), and at the default isolation
  two first messages can both find none and both insert (`TwoOpenByRace`). It happens exactly when an
  insert commits while a session is open (`SecondOpensExactlyWhenInserted`, `OneOpenIff`), and every such
  insert has one of these two causes (`DoublingHasCause`); a serialisable transaction would leave only the first.
- An accept resets the unread counter after it has assigned the agent, so a message counted in
  between is erased: `UnreadCounter.ResetCanEraseACount` is such a run, `ErasedIff` says which runs
  erase and `UnreadIsExactIff` in which the counter is exact.
- Offline messages are ordered by created_at, the clock of whichever node stored them. They come in
  the order they were sent exactly when those clocks say so (`History.PushedInOrderIff`);
  `PushedOutOfOrder` is a run in which they do not.
- A shutdown throws away the sets of connections bound while it ran, without their offline path: the
  last-connection events balance exactly in the runs without such a set (`HubSystem.BalanceIsExactIff`);
  `DroppedByShutdown` is a run with one.
- The cache shows for caller id 0, which the router never lets through: `TransparentIffNonZero`.
- `GetPeerIDs` is told a number, not a role, and visitors and agents are numbered separately. Whoever
  has the visitor's number is taken for the visitor, so typing and read notices, and the messages of
  an agent that is not the session's own, can go to the wrong user: `AnswerIsOtherPartyIff` says of
  every answer when, `AnswerCanGoAstray` is a run of it.
- `parseUserKey` undoes `userKey` only for roles without a colon (`ParseUndoesKeyIff`); the router's
  roles have none.
- `GetMessageStats`, which no handler calls, counts four times. Its parts exceed its total exactly
  when a side wrote before its own count was taken; `Services.PartsCanExceedTotal` is a run of it.
- The comment at repo/message.go:73 says the transaction keeps numbers from repeating. The model
  does not rely on that: reading and inserting are apart, and it is the unique index that does it.

## Model

| member | source | states |
|---|---|---|
| ChatTheorems.NumberingHasNoGaps | repo/message.go:74-82 | In every reachable state the numbers taken in a session are exactly 1..n, each once, whatever was sent concurrently, aborted or in flight |
| ChatOrder.CommitKeepsLog | service/message.go:31-57 | A number that is free at commit is n + 1 although it was read long before, and the id taken for it is above every row of the session |
| ChatOrder.RunKeepsOrder | service/message.go:28-66 | The inductive invariant over all runs: every session in order, every pending sender holds at most n + 1 and an id nobody else has |
| ChatTheorems.IdOrderIsSeqOrder | model/message.go:33-40 | Inside a session the global id order is the sequence order, with ids burnt by aborted sends |
| ChatTheorems.ReadFlagsArePrefix | repo/message.go:59-61 | The read messages of a session are its first w; w and the log never shrink in any further run |
| OpenSessions.SecondOpensExactlyWhenInserted | service/session.go:41-66 | A step gives a visitor a further open session beside another exactly when it commits the insert of one while another is open |
| OpenSessions.OneOpenIff | service/session.go:41-66 | In a run a visitor never has two sessions that are not closed exactly when no session of theirs was inserted while one was not closed |
| OpenSessions.DoublingHasCause | service/session.go:43-57 | Behind every such insert is its handler's lookup, which failed, or after which another session of the visitor was inserted before this one |
| OpenSessions.OnlyOpenSession | repo/session.go:92-99 | In such a run whichever session of the visitor that is not closed the newest-first lookup returns, it is the only one |
| OpenSessions.TwoOpenSessions | service/session.go:43-57 | A run in which a visitor has two open sessions after a failed lookup |
| OpenSessions.TwoOpenByRace | repo/tx.go:23-28 | A run in which both lookups work, find none, and both handlers insert |
| ChatIds.RunKeepsIds | model/session.go:16-16 | Session ids are handed out once; a row still to be committed meets no other under its id |
| ChatTheorems.SessionLifecycle | service/session.go:75-129 | Over any further run no row is lost, a closed row stays closed with its agent, an active one never returns to pending, pending means no agent, an assigned agent never changes |
| ChatTheorems.AtMostOneAcceptWins | repo/session.go:61-79 | Of all accepts of a session in a run at most one wins, and exactly one has if the session has an agent |
| ChatTheorems.WinnerIsReturned | service/session.go:88-108 | The winner's id stays the agent for ever and is what the returned session carries |
| ChatTheorems.UnreadIsConserved | handler/chat.go:92-101 | Messages whose handler saw an agent = counter + erased by resets + refused increments + handlers yet to increment; the counter is 0 without an agent |
| UnreadCounter.ErasedIff | service/session.go:88-99 | A count has been erased exactly in the runs in which an increment of the session took effect between its one winning accept and that accept's reset |
| UnreadCounter.UnreadIsExactIff | handler/chat.go:92-101 | The counter is what was counted and is not still owed exactly in the runs in which no increment fell between accept and reset and none was refused |
| UnreadCounter.ResetCanEraseACount | service/session.go:96-99 | A run in which a counted message is erased by the reset of the accept |
| ChatTheorems.LastMessageMovesForward | repo/session.go:138-144 | last_msg_id names a message of its own session and never goes back |
| Effects.LookupFindsOpen | repo/session.go:92-99 | A lookup puts an idle handler before exactly the visitor's sessions that are not closed, and finds none exactly when all of them are closed |
| Effects.ClosedIsNotFound | service/session.go:112-129 | A close writes status and reason to that row alone; however the run goes on, no lookup puts a handler before the session again |
| Effects.InsertOpensSession | service/session.go:50-64 | In every reachable state an insert meets no row under its id and adds one that is pending, unassigned and unread, beside all others |
| Effects.AcceptTakesPending | repo/session.go:61-79 | In every reachable state an accept by an idle handler takes a session exactly when its row is pending, whatever else the row says, writes agent and active to it alone, and else changes nothing |
| Effects.ResetZeroes | repo/session.go:152-155 | The reset after an accept finds the row with its own agent, whoever else wrote meanwhile, and sets only the counter, to 0 |
| Effects.CommitStoresDraft | service/message.go:36-63 | In every reachable state a commit stores session, role, sender and content of the draft, unread, exactly when the held number is free; then it is on top of the session, and last_msg_id is this row if the update works |
| Effects.CountRaisesUnread | handler/chat.go:92-95 | A visitor's handler that saw an agent raises that session's counter by one; every other leaves the table alone |
| Effects.VisitorMessagesAreTheVisitors | service/message.go:36-46 | In every reachable state a message stored as a visitor's was sent by the visitor of its own session, and so was every one about to be stored |
| History.VisitorGetsUnreadTails | repo/message.go:102-110 | Every answer to the visitor's offline query holds, of each session of the visitor that is not closed, exactly the unread tail, each message once, and of other sessions nothing; with one such session that is all, with none nothing |
| History.AgentGetsUnreadTails | repo/message.go:113-121 | The same for the sessions whose row names the agent and is not closed |
| History.AnswerHoldsTails | repo/message.go:102-121 | ... and inside each session the messages are ordered by created_at |
| History.TailIsUnread | repo/message.go:102-121 | In every reachable state the tail of a session is exactly its unread messages, numbered without a gap up to its last |
| History.AnswerMembers | repo/message.go:102-121 | An answer's members are the unread messages of the joined sessions, each once, none before an older one |
| History.PushedInOrderIff | model/message.go:42-42 | Every permitted answer gives a session's messages in the order they were sent exactly when their created_at strictly increase in that order |
| History.PushedOutOfOrder | repo/message.go:102-110 | A run after which a permitted answer gives two messages of an open session in the wrong order |
| History.SortAnswers | repo/message.go:107-107 | Sorting by created_at permutes the rows and orders them |
| History.PageIsSlice | repo/message.go:38-49 | Filter, descending sort and limit give exactly the newest min(limit, rows below before_seq) rows below before_seq, newest first; without a positive limit the size is 20 |
| History.WalkIsTheLog | handler/session.go:196-212 | Page i of a walk is the i-th slice of `limit` rows (20 without a positive limit) of the log as it stood at the first request, though sends, reads and closes run between the requests |
| History.WalkEnds | handler/session.go:196-212 | The walk is at an empty page exactly when everything has been delivered; every page before the last starts above the end, so n rows take at most n / limit + 2 requests |
| History.FinishedWalkDeliversTheLog | service/message.go:74-76 | A finished walk delivered the log of the first request, newest first, each message once, for every limit |
| PeerCache.StepKeepsWorld | service/session.go:191-195 | No step of any node, stale fills and rolled-back creates included, puts a wrong agent into any cache |
| PeerCache.CacheIsTransparent | service/session.go:198-222 | Over every interleaving on every node a lookup answers what the table alone would have answered at some moment of the call |
| PeerCache.TransparentIffNonZero | service/session.go:203-211 | The cache is transparent for a caller exactly when the caller's id is not 0 |
| PeerCache.AnswerIsOtherPartyIff | handler/agent.go:123-136 | For every settled answer of every run and any caller: it is the party the caller wants, by the row as it now is, exactly if at a moment of the call a visitor was the session's own and had an agent, an agent did not have the visitor's number in an assigned session; its number is the visitor's under the condition the chat handler needs |
| PeerCache.RowNamesOtherPartyIff | service/session.go:218-221 | The same on one row |
| PeerCache.AnswerCanGoAstray | handler/agent.go:123-136 | A run in which an agent asks for the other party and is told of another agent |
| PeerCache.AnswerIsGiven | service/session.go:213-221 | Every answer of a reachable table is given to some call in some run |
| Interference.TablesMove | service/message.go:28-66 | Whatever handlers interleave, both tables stay in order and only move forward |
| Interference.OthersSpareTask | service/message.go:31-57 | No other handler touches the number, id or row a handler is in the middle of |
| Stores.SessionRepo.FindByVisitorID | repo/session.go:92-99 | A row of the visitor that is not closed, "none" only if every row of the visitor is closed, or an error |
| Stores.SessionRepo.AssignAgent | repo/session.go:61-79 | Writes agent and active to a row whose status is pending; no row affected means it is missing or not pending |
| Stores.MessageRepo.GetNextSeqNum | repo/message.go:74-82 | MAX + 1 is one more than the number of committed rows of the session; every number there is below it, and the one just below is there |
| Stores.MessageRepo.Create | repo/message.go:33-35 | The row is appended unless its (session, seq_num) is taken; a working store refuses for no other reason |
| Stores.MessageRepo.FindBySessionID | repo/message.go:38-49 | An error, or with a positive limit min(limit, rows below before_seq) rows, otherwise min(20, ..), one sequence number below the other from the newest allowed on |
| Stores.MessageRepo.FindUnreadForVisitor | repo/message.go:102-110 | An error, or exactly the unread messages of sessions whose row has this visitor and is not closed, each once, by created_at |
| Stores.MessageRepo.FindUnreadForAgent | repo/message.go:113-121 | An error, or exactly the unread messages of sessions whose row has this agent and is not closed, each once, by created_at |
| Stores.CountsAddUp | repo/message.go:131-135 | The three role counts add up to the session's total |
| Stores.CountsRise | repo/message.go:131-135 | A role's count never falls, and stays exactly while no message of that role joins |
| Services.MessageService.SendMessage | service/message.go:28-66 | Read, take, commit or give up, interleaved with anything; a stored row carries the session, role, sender, content and clock it was given, unread, as number n + 1 with the highest id of its session; with no failing statement last_msg_id is this row, and it is refused only if another message of the session came first |
| Services.HeldAtCommit | service/message.go:32-50 | A number read at the start is either taken by a later message or still n + 1 at commit, and the id is above all lower numbers |
| Services.MessageService.SendSystemMessage | service/message.go:69-71 | A system message, from sender 0, is stored by the same rules |
| Services.MessageService.MarkAsRead | service/message.go:89-91 | Afterwards the read messages are those up to the id and those read before; the watermark does not move back |
| Services.MessageService.GetMessageStats | service/message.go:140-176 | An error, or four counts each exact at its own moment of the call; total <= visitor + agent + system, with equality exactly if no side wrote before its own count |
| Services.PartsCanExceedTotal | service/message.go:140-159 | A run in which the parts exceed the total |
| Services.SessionService.CreateOrGetSession | service/session.go:35-67 | Looks, and returns a session of the visitor that is not closed, or, if all of the visitor's are closed or the lookup failed, takes an id and inserts a pending row nobody has, interleaved with anything; the visitor's handler then stands before its message to that session, and any failure leaves no row |
| Services.SessionService.CreateSession | service/session.go:50-64 | The cache is filled before the commit, with others in between; the new row has an id nobody had when the call began |
| Services.SessionService.AcceptSession | service/session.go:75-109 | Read the agent, assign, reset, re-read, interleaved with anything; if nothing fails it succeeds exactly when the row's status is pending at the assignment, a conflict means it was missing or not pending; it returns its own agent and the row's visitor, for good, and has cached the pair |
| Services.SessionService.CloseSession | service/session.go:112-129 | The close takes effect whatever the status; the returned session is closed and keeps its agent |
| Services.SessionService.GetPeerIDs | service/session.go:198-222 | At some moment of the call the table says: to the session's visitor its agent if there is one, to anybody else its visitor; whether the answer came from the cache or not |
| UserKeys.ParseUserKey | ws/hub.go:33-46 | The scanning loop computes the split at the first colon; without a colon the answer is no role and id 0 |
| UserKeys.ParseUndoesKeyIff | ws/hub.go:28-46 | Parsing undoes key building for every int64 id exactly when the role has no colon |
| UserKeys.KeysAreInjective | ws/hub.go:28-30 | Two users of colon-free roles never share a key |
| HubSystem.RouteDispatchesIff | handler/router.go:19-59 | What is dispatched: auth and heartbeat without a user; to a visitor all but auth and the agents' five messages, to an agent all but auth and the visitors' two; each refusal has its one verdict |
| HubSystem.IdentityIsFrozen | handler/router.go:137-149 | In every run, once a connection has a user its user, role and tenant never change, and the role is visitor or agent |
| HubSystem.MapsAgree | ws/hub.go:203-265 | The indexes hold exactly the live bound connections under the keys their present identity yields; no set is empty |
| HubSystem.RemovalIsFinal | ws/hub.go:203-265 | A removal at any point of an authentication leaves no trace of the connection in any map, then or later; a second removal does nothing |
| HubSystem.LastConnectionEventsBalance | ws/hub.go:219-250 | Per user and role: fillings = emptyings + shutdown drops + (1 if bound); the agent offline path runs once per emptying, the unregistration once per emptying in either role |
| HubSystem.DroppedIff | ws/hub.go:603-607 | There are drops exactly in the runs in which a shutdown threw the maps away while the user had a set |
| HubSystem.BalanceIsExactIff | ws/hub.go:219-250 | Fillings = emptyings + (1 if bound) exactly in the runs without such a shutdown |
| HubSystem.DroppedByShutdown | ws/hub.go:573-607 | A run in which a set appeared, none emptied and none is there |
| HubSystem.IndexServes | ws/hub.go:203-339 | Under a user's key the index lists exactly the connections serving that user in that role |
| HubSystem.RunKeepsSys | ws/hub.go:305-339 | The invariant behind these, over runs with failed and retried authentications and removals between identity and bind |
| HubServer.Conn.Send | ws/conn.go:116-121 | A closed connection accepts nothing; otherwise the socket may still refuse |
| HubServer.Conn.Close | ws/conn.go:124-132 | Only the first close takes the connection out of the hub |
| HubServer.Hub.HandleOpen | ws/hub.go:116-124 | An anonymous live connection beside all others, in no index |
| HubServer.Hub.RemoveConn | ws/hub.go:204-265 | The hub as if the connection had never been bound, emptied sets dropped, and for each the unregistration, for an agent also the offline path |
| HubServer.Hub.BindUser | ws/hub.go:305-339 | The connection joins both indexes under its keys and one more registration is due, unless it has been removed meanwhile |
| HubServer.Hub.SendToUser | ws/hub.go:351-392 | Send is called once on each open local connection under the user and role; only if none accepts, one packet with the same user, role and data goes to the node whose unexpired entry the registry holds, and none to oneself |
| HubServer.Hub.BroadcastToTenantExcept | ws/hub.go:427-461 | Send is called once on each of the tenant's connections but the excluded one, and one message is published |
| HubServer.Hub.HandleRemoteTenantMessage | ws/hub.go:493-524 | As above from the bus, and nothing for the node's own message |
| HubServer.Hub.HandleRemoteNodeMessage | ws/hub.go:464-490 | Once on each connection of exactly that user and role; nothing if either is missing |
| Relay.IndexIsFields | ws/hub.go:305-339 | In every reachable state the indexes list a connection exactly by the user, role and tenant written on it once it is bound |
| Relay.Receive | ws/distributor.go:199-265 | What the subscriber passes on: a packet on this node's channel is offered to exactly the connections bound here as its user in its role, a tenant packet to those of its tenant but the excluded one, and never the node's own |
| Relay.SendAcross | ws/hub.go:351-490 | Both ends joined: exactly if no connection here takes it and the registry names the other node, the same data is offered there to exactly the connections bound as that user in that role |
| Relay.BroadcastAcross | ws/hub.go:427-524 | Both ends of a broadcast: on the other node exactly the connections bound in the tenant but the excluded one are offered it once |
| HubServer.Hub.RefreshUserTTL | ws/hub.go:527-550 | Every user in the index is renewed exactly once, in whatever role: an unexpired entry gets the full time to live, no other changes |
| HubServer.RefreshCoversBoundUsers | ws/hub.go:531-546 | In every run the ids collected are exactly the users with a bound connection |
| HubServer.Hub.Shutdown | ws/hub.go:574-610 | All connections closed, all maps empty, and no user in the index at the start still registered to this node |
| Routing.Router.Route | handler/router.go:108-159 | Rate limit and parse first; then a visitor is dispatched all but auth and the agents' five messages, an agent all but auth and the visitors' two, nobody else but auth and heartbeat, with one verdict for each refusal |
| Authentication.AuthHandler.Handle | handler/auth.go:34-65 | Tenant and role are set before anything is checked, the user only on success, then the bind, with removals and other handlers anywhere between; from a reachable state of the hub to a reachable one, so the maps agree |
| HubSystem.StaysReachable | ws/hub.go:203-339 | Whatever auth handlers and others interleave, the hub stays in a state its machine reaches |
| Authentication.AuthHandler.SendOfflinePush | handler/auth.go:139-188 | Nothing if the messages cannot be read; else what was read is exactly the unread messages of the user's sessions that are not closed, and what was sent are its first messages in batches of 50, only the last shorter, all of them exactly when every send succeeds |
| Authentication.BatchesFlatten | handler/auth.go:164-169 | The first k slices of 50 are together the first messages in order, all but the last of 50, none empty |
| ChatHandling.ChatHandler.HandleVisitorMessage | handler/chat.go:63-131 | Session, message, counter in this order; the stored message is the visitor's own, from the visitor's side; then the sender is acknowledged with its id and number, and the message offered to exactly the open connections bound as the agent the session has for good, or forwarded to that agent's node if none takes it |
| ChatHandling.ChatHandler.Enter | handler/chat.go:64-79 | The visitor is told of the session exactly if it is new or still waiting, and the agent handed on is the row's |
| ChatHandling.ChatHandler.CountIfAssigned | handler/chat.go:92-95 | With an agent the counter of that row alone goes up by one, without one nothing changes |
| ChatHandling.ChatHandler.HandleAgentMessage | handler/chat.go:134-167 | The peer is looked up first, the message stored as the agent's without counting and acknowledged; then it is offered to exactly the open connections bound as a visitor under that number, or forwarded |
| ChatHandling.Deliver | handler/chat.go:103-128 | The sender gets one acknowledgement; without it nobody else gets anything |
| Delivery.BroadcastReachesEachOnce | ws/hub.go:427-461 | Over any run, number of nodes and delivery order: a connection has one copy if at the step its node handled the broadcast it was bound there in the tenant, and it is not the excluded one; else none |
| Delivery.HandledOnce | ws/hub.go:499-501 | A node handles a broadcast at one step at most; the publisher's echo is not one |
| Delivery.SnapshotIsTheTenant | ws/hub.go:505-517 | What a node finds under a tenant is exactly its connections bound in that tenant |
| Delivery.BroadcastStaysInTenant | ws/hub.go:493-524 | No other tenant's connection has a copy; when the bus is drained of it every node has handled it |
| Delivery.UserMessageStaysWithUser | ws/hub.go:464-490 | At most one copy per connection, only at connections of that user and role, on one node, although the registry key drops the role |
| Delivery.UserMessageFollowsRegistry | ws/hub.go:374-388 | Over any run a user message is on the bus exactly while it is sent and not delivered, and it is sent, and delivered away from its node, only to a node the registry named at a look-up made after no local connection took it |
| Delivery.LookUpSends | ws/hub.go:374-388 | The look-up sends exactly when the registry names another node, and to that node |
| HubServer.Bus.PublishToNode | ws/distributor.go:127-132 | One message on the node's channel, nothing for oneself |
| Registry.OwnershipPassesThroughAbsence | ws/distributor.go:16-30 | Over any run a user moves to another node only after an absent entry caused by the owner's own unregister or by expiry |
| Registry.LosingTakesARelease | ws/distributor.go:139-168 | An owner is lost only at such a release, never by another node's register, unregister or refresh |
| Registry.RefreshKeepsOwners | ws/distributor.go:158-168 | A refresh changes no owner and only postpones deadlines of entries that are there |
| Registry.LeaseHolds | ws/distributor.go:139-149 | In any run from an empty registry: until the deadline the owner stays unless it unregisters, whatever the others do |
| Registry.Distributor.RegisterUser | ws/distributor.go:140-143 | Takes the user, with the full time to live, unless another node holds an unexpired entry |
| Registry.Distributor.UnregisterUser | ws/distributor.go:146-149 | Gives up only what this node holds |
| Registry.Distributor.RefreshUsers | ws/distributor.go:158-168 | The pipeline gives every listed entry that is there the full time to live and changes no owner and no other entry |

## Left out

- Redis, GORM and the websocket server are tables, a key-value map with expiry and a bag of packets; pools, retries, tracing and logging are not modelled.
- `BroadcastToTenant`'s local half goes through a room API that is not part of this model; the `Except` variant stands for broadcasts, so the `new_session` broadcast of a visitor's first message is missing from `HandleVisitorMessage`.
- JSON, message structs and `Validate` methods are single-branch checks, no depth.
- Password hashing and the visitor and agent tables: an authentication's lookup is a parameter.
- Start-up, config, health endpoint, subscriber reconnect loops, heartbeats.
- "Connected implies registered" and "`SendToUser` success implies delivered" are not promised by the code: register and unregister run in unordered goroutines, and publishing to oneself is a silent no-op. So bind and removal only record that the calls are due; when they run is not modelled.
- Online-agent counting, satisfaction ratings, visitor updates, list building, `AvgResponseTime`: easy or unused; in cluster mode the offline callback also depends on the online count, here only the start of the path is.
- The accept and close handlers' notices (system message, pushes, acknowledgement) are further calls of methods that are modelled.
- FindByVisitorID orders by created_at DESC: which of several open sessions comes first is left open.
- Nicknames, source, addresses and times are columns no statement here reads.
- Services.SessionService.CreateOrGetSession: that the pair is cached at the end, or that other entries are as before, is not promised, because other goroutines fill and evict meanwhile; what is kept is that no entry with an agent is wrong.
- Services.SessionService.CloseSession: that the local cache entry is dropped is not promised, because by the end of the call another goroutine may have cached the pair again.
- HubServer.Hub.Shutdown: the connections are closed and the maps emptied; in which order the removals ran is not stated, nor what becomes of connections bound meanwhile, for which see `HubSystem.BalanceIsExactIff`.
- HubServer.Hub.HandleClose: does not drop the connection's rate limiter, which is `Router.RemoveLimiter`'s.
- Routing.Router.Route: the token bucket itself is not modelled, its answer is a parameter.
- ChatHandling.ChatHandler.HandleVisitorMessage: others change the tables between its steps, but the hub only between its calls in `HubSystem`, not inside this method.
- ChatHandling.ChatHandler.HandleAgentMessage: as above, the hub does not change inside this method.
