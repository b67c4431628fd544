/**
 The router in front of the handlers: a limiter per connection, then the authentication and
 role tables, then the handler registered for the message type.
 */
module Routing {
  import opened HubModel
  import opened HubServer
  import HubSystem

  datatype Routed = RateLimited | BadJson | Checked(verdict: HubSystem.Verdict)

  class Router {
    var limiters: set<ConnId>
    var handlers: set<HubSystem.ClientMsg>

    constructor ()
      ensures limiters == {} && handlers == {}
    {
      limiters, handlers := {}, {};
    }

    // The start-up registers a handler for every message type but the unknown ones.
    ghost predicate Complete()
      reads this
    {
      forall m :: m in handlers <==> !m.Unknown?
    }

    method Register(m: HubSystem.ClientMsg)
      modifies this`handlers
      ensures handlers == old(handlers) + {m}
    {
      handlers := handlers + {m};
    }

    method RemoveLimiter(id: ConnId)
      modifies this`limiters
      ensures limiters == old(limiters) - {id}
    {
      limiters := limiters - {id};
    }

    // What becomes of a message, given the bucket's answer and whether it parses: dispatched is
    // what the sender's role is for, and each refusal has its one cause.
    method Route(conn: Conn, m: HubSystem.ClientMsg, allowed: bool, parses: bool) returns (r: Routed)
      requires Complete()
      modifies this`limiters
      ensures limiters == old(limiters) + {conn.id}
      ensures r == if !allowed then RateLimited else if !parses then BadJson else Checked(HubSystem.Route(conn.Who(), m))
      ensures !allowed ==> r == RateLimited
      ensures allowed && !parses ==> r == BadJson
      ensures allowed && parses && conn.user <= 0 ==>
        r == Checked(if m in {HubSystem.Auth, HubSystem.Heartbeat} then HubSystem.Dispatch
                     else if m == HubSystem.Unknown then HubSystem.UnknownType else HubSystem.Unauthorized)
      ensures allowed && parses && conn.user > 0 && conn.role == "visitor" ==>
        r == Checked(if m in {HubSystem.Auth, HubSystem.Unknown, HubSystem.AgentOnline, HubSystem.AgentGone,
                              HubSystem.SessionAccept, HubSystem.SessionList, HubSystem.WaitingList}
                     then HubSystem.InvalidRole else HubSystem.Dispatch)
      ensures allowed && parses && conn.user > 0 && conn.role == "agent" ==>
        r == Checked(if m in {HubSystem.Auth, HubSystem.Unknown, HubSystem.SatisfactionRate, HubSystem.VisitorUpdate}
                     then HubSystem.InvalidRole else HubSystem.Dispatch)
      ensures r == Checked(HubSystem.Dispatch) ==> m in handlers
    {
      if conn.id !in limiters {
        limiters := limiters + {conn.id};
      }
      if !allowed {
        return RateLimited;
      }
      if !parses {
        return BadJson;
      }
      if HubSystem.AuthRequired(m) && conn.user <= 0 {
        return Checked(HubSystem.Unauthorized);
      }
      if conn.user > 0 {
        if HubSystem.KnownRole(conn.role) && !HubSystem.Allowed(conn.role, m) {
          return Checked(HubSystem.InvalidRole);
        }
      }
      if m !in handlers {
        return Checked(HubSystem.UnknownType);
      }
      r := Checked(HubSystem.Dispatch);
    }
  }
}
