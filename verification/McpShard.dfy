/** The per-core object, with the fields it updates in place, proved against the value-level modules. */
module Shard {
  import opened Prelude
  import opened Digits
  import opened Json
  import SessionIds
  import S = Sessions
  import Subs = Subscriptions
  import Rpc = ClientRpc
  import A = Admission
  import Filter = IpFilter
  import RateLimiter
  import CircuitBreaker
  import Att = Attribution
  import Dispatcher

  /** A session's message queue (below capacity) and its activity flag. */
  class SseSession {
    var messages: seq<string>
    var active: bool

    constructor ()
      ensures messages == [] && active
    {
      messages, active := [], true;
    }
  }

  /** The promise behind one server-to-client request. It can be resolved once. */
  class ClientPromise {
    var outcome: Option<Rpc.Outcome>

    constructor ()
      ensures outcome.None?
    {
      outcome := None;
    }

    method Resolve(o: Rpc.Outcome)
      requires outcome.None?
      modifies this
      ensures outcome == Some(o)
    {
      outcome := Some(o);
    }
  }

  datatype Handling = Handled | NotHandled | Threw

  /** The parser reads back what dump writes. */
  ghost predicate Undoes(parse: string -> Option<Json>, dump: Json -> string) {
    forall j :: parse(dump(j)) == Some(j)
  }

  /** Read by any parser that undoes dump, the text is a JSON-RPC call with this id, method and parameters. */
  ghost predicate TellsCall(dump: Json -> string, text: string, id: nat, name: string, params: Json) {
    forall parse: string -> Option<Json> | Undoes(parse, dump) :: IsCall(parse(text), id, name, params)
  }

  predicate IsCall(j: Option<Json>, id: nat, name: string, params: Json) {
    && j.Some? && j.value.Obj? && j.value.fields.Keys == {"jsonrpc", "id", "method", "params"}
    && j.value.fields["jsonrpc"] == Str("2.0") && j.value.fields["id"] == Int(id)
    && j.value.fields["method"] == Str(name) && j.value.fields["params"] == params
  }

  /** Read by any parser that undoes dump, the text is the notification that a resource was updated. */
  ghost predicate TellsUpdate(dump: Json -> string, text: string, uri: string) {
    forall parse: string -> Option<Json> | Undoes(parse, dump) :: IsUpdate(parse(text), uri)
  }

  predicate IsUpdate(j: Option<Json>, uri: string) {
    && j.Some? && j.value.Obj? && j.value.fields.Keys == {"jsonrpc", "method", "params"}
    && j.value.fields["jsonrpc"] == Str("2.0")
    && j.value.fields["method"] == Str("notifications/resources/updated")
    && j.value.fields["params"] == Obj(map["uri" := Str(uri)])
  }

  class McpShard {
    const shardId: nat
    const limit: S.ConnectionLimit
    const policies: A.Policies
    /** inet_pton and json::dump, which are not part of this model. */
    const parseAddress: string -> Filter.Address
    const dump: Json -> string
    const maxBatchSize: nat

    const rateLimiter: RateLimiter.PerIpRateLimiter
    const circuitBreaker: CircuitBreaker.PerIpCircuitBreaker

    var sessions: map<string, SseSession>
    var sessionCounter: nat
    /** The thread-local counter of the Streamable HTTP transport; a shard has a thread of its own. */
    var streamCounter: nat
    var sessionToIp: map<string, string>
    var ipConnCount: map<string, nat>

    var currentSessionId: string
    var subscriptions: Subs.Subs
    /** The dispatches suspended between two elements of their batch. */
    var tasks: map<nat, Att.Task>

    var serverRequestCounter: nat
    var pending: map<nat, ClientPromise>
    /** What became of the requests that are no longer pending. */
    ghost var completed: map<nat, Rpc.Outcome>

    constructor (shardId: nat, limit: S.ConnectionLimit, policies: A.Policies,
                 parseAddress: string -> Filter.Address, dump: Json -> string, maxBatchSize: nat)
      ensures this.shardId == shardId && this.limit == limit && this.policies == policies
      ensures this.parseAddress == parseAddress && this.dump == dump && this.maxBatchSize == maxBatchSize
      ensures fresh(rateLimiter) && fresh(circuitBreaker)
      ensures Valid() && Table() == S.EmptyTable(shardId) && Guards() == A.NO_STATE
      ensures currentSessionId == "" && subscriptions == map[] && tasks == map[] && Requests() == Rpc.NO_REQUESTS
    {
      this.shardId, this.limit, this.policies := shardId, limit, policies;
      this.parseAddress, this.dump, this.maxBatchSize := parseAddress, dump, maxBatchSize;
      rateLimiter := new RateLimiter.PerIpRateLimiter(policies.rate);
      circuitBreaker := new CircuitBreaker.PerIpCircuitBreaker(policies.breaker);
      sessions, sessionCounter, streamCounter := map[], 0, 0;
      sessionToIp, ipConnCount := map[], map[];
      currentSessionId, subscriptions, tasks := "", map[], map[];
      serverRequestCounter, pending, completed := 0, map[], map[];
    }

    // ---- The object as values ----

    /** No two ids share a session or a promise, and what is pending is not resolved. */
    ghost predicate Valid()
      reads this, pending.Values, rateLimiter, circuitBreaker
    {
      && (forall a, b | a in sessions && b in sessions && a != b :: sessions[a] != sessions[b])
      && (forall a, b | a in pending && b in pending && a != b :: pending[a] != pending[b])
      && (forall id | id in pending :: pending[id].outcome.None?)
      && rateLimiter.cfg == policies.rate && circuitBreaker.cfg == policies.breaker
    }

    ghost function View(): map<string, S.Session>
      reads this`sessions, sessions.Values
    {
      map id | id in sessions :: S.Session(sessions[id].messages, sessions[id].active)
    }

    ghost function Table(): S.Table
      reads this, sessions.Values
    {
      S.Table(shardId, View(), sessionToIp, ipConnCount, sessionCounter, streamCounter)
    }

    ghost function Desk(): Att.Desk
      reads this
    {
      Att.Desk(maxBatchSize, currentSessionId, subscriptions, tasks)
    }

    ghost function Requests(): Rpc.Rpc
      reads this
    {
      Rpc.Rpc(serverRequestCounter, pending.Keys, completed)
    }

    ghost function Guards(): A.Guards
      reads this, rateLimiter, circuitBreaker
    {
      A.Guards(rateLimiter.buckets, circuitBreaker.states)
    }

    // ---- Security ----

    method CheckRequest(clientIp: string, apiKey: string, created: int, now: int) returns (verdict: A.Verdict)
      requires Valid() && created <= now
      modifies rateLimiter, circuitBreaker
      ensures Valid()
      ensures (Guards(), verdict)
           == A.Check(policies, old(Guards()), A.Request(clientIp, parseAddress(clientIp), apiKey), now)
    {
      var allowed := Filter.IsAllowed(policies.filter, parseAddress(clientIp));
      if !allowed {
        return A.Forbidden;
      }
      if policies.keys.Some? && apiKey !in policies.keys.value {
        return A.Unauthorized;
      }
      var granted := rateLimiter.TryAcquire(clientIp, created, now);
      if !granted {
        return A.TooManyRequests;
      }
      var admitted := circuitBreaker.AllowRequest(clientIp, now);
      if !admitted {
        return A.ServiceUnavailable;
      }
      return A.OK;
    }

    method RecordOutcome(clientIp: string, isRpcError: bool, now: int)
      requires Valid()
      modifies circuitBreaker
      ensures Valid()
      ensures Guards() == A.Outcome(policies, old(Guards()), clientIp, isRpcError, now)
    {
      if isRpcError {
        circuitBreaker.RecordFailure(clientIp, now);
      } else {
        circuitBreaker.RecordSuccess(clientIp);
      }
    }

    // ---- Sessions ----

    method TrackIpConn(sessionId: string, clientIp: string)
      modifies this`sessionToIp, this`ipConnCount
      ensures Table() == S.Track(old(Table()), sessionId, clientIp)
    {
      if clientIp != "" {
        sessionToIp := sessionToIp[sessionId := clientIp];
        ipConnCount := ipConnCount[clientIp := (if clientIp in ipConnCount then ipConnCount[clientIp] else 0) + 1];
      }
    }

    method CreateSessionWithId(id: string, clientIp: string)
      requires Valid()
      modifies this`sessions, this`sessionToIp, this`ipConnCount
      ensures Valid()
      ensures Table() == S.CreateWithId(old(Table()), id, clientIp)
    {
      var s := new SseSession();
      sessions := sessions[id := s];
      assert View() == old(View())[id := S.NEW_SESSION];
      TrackIpConn(id, clientIp);
    }

    method CreateSession(clientIp: string) returns (id: string)
      requires Valid()
      modifies this`sessions, this`sessionToIp, this`ipConnCount, this`sessionCounter
      ensures Valid()
      ensures (Table(), id) == S.Create(limit, old(Table()), clientIp)
    {
      assert View().Keys == sessions.Keys;
      if limit.enabled {
        if |sessions| >= limit.maxTotal {
          return "";
        }
        if clientIp != "" {
          var count := if clientIp in ipConnCount then ipConnCount[clientIp] else 0;
          if count >= limit.maxPerIp {
            return "";
          }
        }
      }
      assert !S.Full(limit, Table(), clientIp);
      sessionCounter := sessionCounter + 1;
      assert View() == old(View());
      id := SessionIds.Mint(SessionIds.Sse, shardId, sessionCounter);
      CreateSessionWithId(id, clientIp);
    }

    /** The Streamable HTTP transport opens a session for a first POST. */
    method OpenStream(clientIp: string) returns (id: string)
      requires Valid()
      modifies this`sessions, this`sessionToIp, this`ipConnCount, this`streamCounter
      ensures Valid()
      ensures (Table(), id) == S.OpenStream(old(Table()), clientIp)
    {
      streamCounter := streamCounter + 1;
      assert View() == old(View());
      id := SessionIds.Mint(SessionIds.Streamable, shardId, streamCounter);
      CreateSessionWithId(id, clientIp);
    }

    method GetSession(id: string) returns (s: SseSession?)
      ensures s == if id in sessions then sessions[id] else null
    {
      s := if id in sessions then sessions[id] else null;
    }

    method RemoveSession(id: string)
      requires Valid()
      modifies this`sessions, this`sessionToIp, this`ipConnCount
      ensures Valid()
      ensures Table() == S.Remove(old(Table()), id)
    {
      if id in sessionToIp {
        var ip := sessionToIp[id];
        if ip in ipConnCount {
          if ipConnCount[ip] > 0 {
            ipConnCount := ipConnCount[ip := ipConnCount[ip] - 1];
          }
          if ipConnCount[ip] == 0 {
            ipConnCount := ipConnCount - {ip};
          }
        }
        sessionToIp := sessionToIp - {id};
      }
      sessions := sessions - {id};
      assert View() == old(View()) - {id};
    }

    method PushToSession(id: string, msg: string)
      requires Valid()
      modifies if id in sessions then {sessions[id]} else {}
      ensures Valid()
      ensures Table() == S.Push(old(Table()), id, msg)
      ensures id in sessions ==>
        sessions[id].messages == old(sessions[id].messages) + if old(sessions[id].active) then [msg] else []
    {
      var s := GetSession(id);
      if s != null && s.active {
        s.messages := s.messages + [msg];
        assert View() == old(View())[id := S.Session(s.messages, true)];
      }
    }

    /** What makes a stream loop end: the session turns inactive and gets an empty message. */
    method EndStream(id: string)
      requires Valid() && id in sessions
      modifies sessions[id]
      ensures Valid()
      ensures !sessions[id].active && sessions[id].messages == old(sessions[id].messages) + [""]
      ensures View() - {id} == old(View()) - {id}
    {
      var s := sessions[id];
      s.active := false;
      s.messages := s.messages + [""];
      assert View() == old(View())[id := S.Session(s.messages, false)];
    }

    /** The DELETE request: the session's stream is told to end and the session is removed. */
    method CloseSession(id: string)
      requires Valid()
      modifies this`sessions, this`sessionToIp, this`ipConnCount, if id in sessions then {sessions[id]} else {}
      ensures Valid()
      ensures Table() == S.Remove(old(Table()), id)
      ensures old(id in sessions) ==> !old(sessions[id]).active && "" in old(sessions[id]).messages
    {
      if id in sessions {
        EndStream(id);
      }
      RemoveSession(id);
    }

    // ---- Subscriptions ----

    method SubscribeResource(uri: string)
      modifies this`subscriptions
      ensures subscriptions == Subs.Subscribe(old(subscriptions), currentSessionId, uri)
    {
      if currentSessionId != "" {
        if uri !in subscriptions {
          subscriptions := subscriptions[uri := {}];
        }
        subscriptions := subscriptions[uri := subscriptions[uri] + {currentSessionId}];
      }
    }

    method UnsubscribeResource(uri: string)
      modifies this`subscriptions
      ensures subscriptions == Subs.Unsubscribe(old(subscriptions), currentSessionId, uri)
    {
      if currentSessionId != "" && uri in subscriptions {
        subscriptions := subscriptions[uri := subscriptions[uri] - {currentSessionId}];
        if subscriptions[uri] == {} {
          subscriptions := subscriptions - {uri};
        }
      }
    }

    /** Erases while it iterates over the table, in no particular order. */
    method CleanupSubscriptions(sessionId: string)
      modifies this`subscriptions
      ensures subscriptions == Subs.Cleanup(old(subscriptions), sessionId)
    {
      var todo := subscriptions.Keys;
      while todo != {}
        invariant todo <= subscriptions.Keys <= old(subscriptions).Keys
        invariant forall uri | uri in todo :: subscriptions[uri] == old(subscriptions)[uri]
        invariant forall uri | uri in old(subscriptions) && uri !in todo ::
          if old(subscriptions)[uri] - {sessionId} == {} then uri !in subscriptions
          else uri in subscriptions && subscriptions[uri] == old(subscriptions)[uri] - {sessionId}
        decreases |todo|
      {
        var uri :| uri in todo;
        todo := todo - {uri};
        subscriptions := subscriptions[uri := subscriptions[uri] - {sessionId}];
        if subscriptions[uri] == {} {
          subscriptions := subscriptions - {uri};
        }
      }
    }

    /** The text of a notifications/resources/updated message. */
    function UpdatedText(uri: string): string
    {
      dump(Obj(map["jsonrpc" := Str("2.0"), "method" := Str("notifications/resources/updated"),
                   "params" := Obj(map["uri" := Str(uri)])]))
    }

    /** What it says, to a client that can parse it. */
    lemma TellsItsUpdate(uri: string)
      ensures TellsUpdate(dump, UpdatedText(uri), uri)
    {
    }

    /** Every subscribed session that is present and active gets the message once; no other queue changes. */
    method NotifyResourceUpdated(uri: string)
      requires Valid()
      modifies sessions.Values
      ensures Valid()
      ensures forall id | id in sessions :: sessions[id].active == old(sessions[id].active)
      ensures forall id | id in sessions && (uri, id) in Subs.Rel(subscriptions) && sessions[id].active ::
        sessions[id].messages == old(sessions[id].messages) + [UpdatedText(uri)]
      ensures forall id | id in sessions && !((uri, id) in Subs.Rel(subscriptions) && sessions[id].active) ::
        sessions[id].messages == old(sessions[id].messages)
    {
      if uri !in subscriptions {
        return;
      }
      var msg := UpdatedText(uri);
      var todo := subscriptions[uri];
      while todo != {}
        invariant todo <= subscriptions[uri]
        invariant forall id | id in sessions :: sessions[id].active == old(sessions[id].active)
        invariant forall id | id in sessions ::
          if id in subscriptions[uri] - todo && sessions[id].active
          then sessions[id].messages == old(sessions[id].messages) + [msg]
          else sessions[id].messages == old(sessions[id].messages)
        decreases |todo|
      {
        var sid :| sid in todo;
        todo := todo - {sid};
        var s := GetSession(sid);
        if s != null && s.active {
          s.messages := s.messages + [msg];
        }
      }
    }

    // ---- Server-to-client requests ----

    /** A request under a new id that waits for its response. */
    method Issue() returns (promise: ClientPromise)
      requires Valid() && Rpc.Accounted(Requests())
      modifies this`serverRequestCounter, this`pending
      ensures Valid() && Rpc.Accounted(Requests())
      ensures Requests() == Rpc.Send(old(Requests())).0
      ensures fresh(promise) && pending == old(pending)[serverRequestCounter := promise]
    {
      serverRequestCounter := serverRequestCounter + 1;
      promise := new ClientPromise();
      pending := pending[serverRequestCounter := promise];
    }

    function RequestText(id: nat, name: string, params: Json): string {
      dump(Obj(map["jsonrpc" := Str("2.0"), "id" := Int(id), "method" := Str(name), "params" := params]))
    }

    lemma TellsItsCall(id: nat, name: string, params: Json)
      ensures TellsCall(dump, RequestText(id, name, params), id, name, params)
    {
    }

    /** What is pushed tells the client the new id, the method and the parameters. */
    method SendRequestToClient(sessionId: string, name: string, params: Json)
      returns (promise: ClientPromise, ghost text: string)
      requires Valid() && Rpc.Accounted(Requests())
      modifies this`serverRequestCounter, this`pending, if sessionId in sessions then {sessions[sessionId]} else {}
      ensures Valid() && Rpc.Accounted(Requests())
      ensures Requests() == Rpc.Send(old(Requests())).0
      ensures fresh(promise) && pending == old(pending)[serverRequestCounter := promise]
      ensures TellsCall(dump, text, serverRequestCounter, name, params)
      ensures View() == S.Push(old(Table()), sessionId, text).sessions
      ensures sessionId in sessions && sessions[sessionId].active ==>
        sessions[sessionId].messages == old(sessions[sessionId].messages) + [text]
    {
      promise := Issue();
      assert View() == old(View());
      text := RequestText(serverRequestCounter, name, params);
      TellsItsCall(serverRequestCounter, name, params);
      PushToSession(sessionId, RequestText(serverRequestCounter, name, params));
      assert sessionId in sessions ==> View()[sessionId].messages == sessions[sessionId].messages;
    }

    /** The client reads the newest message of its queue and sends a result back under the id it finds there. */
    method AnswerNewest(
        sessionId: string, parse: string -> Option<Json>, value: Json,
        ghost r: Rpc.Rpc, ghost name: string, ghost params: Json)
      returns (handling: Handling)
      requires Valid() && Rpc.Accounted(r) && r.counter + 1 < TWO_64 && Requests() == Rpc.Send(r).0
      requires Undoes(parse, dump) && sessionId in sessions && sessions[sessionId].messages != []
      requires var messages := sessions[sessionId].messages;
        TellsCall(dump, messages[|messages| - 1], r.counter + 1, name, params)
      modifies this`pending, this`completed, pending[r.counter + 1]
      ensures Valid() && handling == Handled && pending == old(pending) - {r.counter + 1}
      ensures serverRequestCounter == r.counter + 1 && completed == r.completed[r.counter + 1 := Rpc.Result(value)]
      ensures old(pending)[r.counter + 1].outcome == Some(Rpc.Result(value))
    {
      var messages := sessions[sessionId].messages;
      var call := parse(messages[|messages| - 1]);
      assert IsCall(call, r.counter + 1, name, params);
      var response := Rpc.ResultFor(call.value.fields["id"], value);
      Rpc.OwnIdCompletes(r, response, value);
      handling := HandleClientResponse(response);
      assert pending.Keys == old(pending).Keys - {r.counter + 1};
    }

    /**
     send_request_to_client to its end, when the client answers next: it reads the text in its queue with
     any parser that undoes dump and sends back a result under the id it read. That completes exactly
     the promise of this request; every other one stays pending.
     */
    method RequestAnswered(
        sessionId: string, name: string, params: Json, parse: string -> Option<Json>, value: Json)
      returns (promise: ClientPromise, handling: Handling)
      requires Valid() && Rpc.Accounted(Requests()) && serverRequestCounter + 1 < TWO_64
      requires sessionId in sessions && sessions[sessionId].active && Undoes(parse, dump)
      modifies this`serverRequestCounter, this`pending, this`completed, sessions[sessionId]
      ensures Valid() && handling == Handled && fresh(promise) && promise.outcome == Some(Rpc.Result(value))
      ensures pending == old(pending)
      ensures serverRequestCounter == old(serverRequestCounter) + 1
      ensures completed == old(completed)[serverRequestCounter := Rpc.Result(value)]
    {
      ghost var before := Requests();
      ghost var text;
      promise, text := SendRequestToClient(sessionId, name, params);
      assert before.counter + 1 !in before.pending;
      handling := AnswerNewest(sessionId, parse, value, before, name, params);
      PutAndTaken(old(pending), before.counter + 1, promise);
    }

    /** The promise a response resolves, if any. */
    ghost function Answered(response: Json): set<ClientPromise>
      reads this
    {
      set id | id in pending && Rpc.Answers(Requests(), response) == Some(id) :: pending[id]
    }

    /** Only the promise that is answered is touched. */
    method HandleClientResponse(response: Json) returns (handling: Handling)
      requires Valid()
      requires Contains(response, "result") || Contains(response, "error")
      modifies this`pending, this`completed, Answered(response)
      ensures Valid()
      ensures Requests() == Rpc.Handle(old(Requests()), response)
      ensures handling == Handled <==> Rpc.Answers(old(Requests()), response).Some?
      ensures forall id | id in old(pending) && Rpc.Answers(old(Requests()), response) == Some(id) ::
        old(pending)[id].outcome == Rpc.OutcomeOf(response)
      ensures forall id | id in pending :: pending[id] == old(pending)[id]
    {
      if !Contains(response, "id") {
        return NotHandled;
      }
      var id := Rpc.ToUint64(response.fields["id"]);
      if id.None? || id.value !in pending {
        return NotHandled;
      }
      var promise := pending[id.value];
      var outcome;
      if Contains(response, "result") {
        outcome := Rpc.Result(response.fields["result"]);
      } else {
        var err := response.fields["error"];
        if !err.Obj? || !ValueOr(err, "message", Str("client error")).Str? {
          return Threw;
        }
        outcome := Rpc.ClientError(ValueOr(err, "message", Str("client error")).s);
      }
      promise.Resolve(outcome);
      completed := completed[id.value := outcome];
      pending := pending - {id.value};
      return Handled;
    }

    /**
     The part of dispatch before the dispatcher runs: a response to one of the server's own requests is
     consumed and nothing else happens; for anything else the context now names the caller's session.
     */
    method BeginDispatch(body: Option<Json>, sessionId: string) returns (consumed: bool)
      requires Valid()
      modifies this`pending, this`completed, pending.Values, this`currentSessionId
      ensures Valid()
      ensures consumed <==>
        && body.Some? && body.value.Obj? && "id" in body.value.fields && "method" !in body.value.fields
        && ("result" in body.value.fields || "error" in body.value.fields)
        && Rpc.Answers(old(Requests()), body.value).Some?
      ensures consumed ==> currentSessionId == old(currentSessionId)
      ensures consumed ==> Requests() == Rpc.Handle(old(Requests()), body.value)
      ensures !consumed ==> currentSessionId == sessionId && Requests() == old(Requests())
    {
      if LooksLikeResponse(body) {
        var handling := HandleClientResponse(body.value);
        if handling == Handled {
          return true;
        }
      }
      currentSessionId := sessionId;
      return false;
    }

    // ---- Dispatching, one uninterrupted slice at a time ----

    /** One element of a request: the dispatcher calls the handler of its method, the handler reads the uri. */
    method RunElement(req: Json)
      modifies this`subscriptions
      ensures Desk() == Att.Element(old(Desk()), req)
    {
      if Dispatcher.Throws(req) || !Dispatcher.WellFormed(req) || Dispatcher.IsNotification(req) {
        return;
      }
      var name := req.fields["method"].s;
      var uri := Att.UriOf(ValueOr(req, "params", EMPTY_OBJECT));
      if uri.None? || uri.value == "" {
        return;
      }
      if name == "resources/subscribe" {
        SubscribeResource(uri.value);
      } else if name == "resources/unsubscribe" {
        UnsubscribeResource(uri.value);
      }
    }

    method Park(task: nat, sessionId: string, rest: seq<Json>)
      modifies this`tasks
      ensures tasks == Att.Park(old(tasks), task, sessionId, rest)
    {
      if rest == [] {
        tasks := tasks - {task};
      } else {
        tasks := tasks[task := Att.Task(sessionId, rest)];
      }
    }

    /** dispatch up to its first suspension: nothing lies between setting the context and the first element's use of it. */
    method StartDispatch(task: nat, body: Option<Json>, sessionId: string) returns (consumed: bool)
      requires Valid() && task !in tasks
      modifies this`pending, this`completed, pending.Values, this`currentSessionId, this`subscriptions, this`tasks
      ensures Valid()
      ensures consumed <==>
        && body.Some? && body.value.Obj? && "id" in body.value.fields && "method" !in body.value.fields
        && ("result" in body.value.fields || "error" in body.value.fields)
        && Rpc.Answers(old(Requests()), body.value).Some?
      ensures consumed ==> Desk() == old(Desk()) && Requests() == Rpc.Handle(old(Requests()), body.value)
      ensures !consumed ==> Requests() == old(Requests())
      ensures !consumed ==> Desk() == Att.Run(old(Desk()), Att.Begin(task, sessionId, body))
    {
      consumed := BeginDispatch(body, sessionId);
      if !consumed {
        var todo := Att.Elements(body, maxBatchSize);
        if todo != [] {
          RunElement(todo[0]);
          Park(task, sessionId, todo[1..]);
        }
      }
    }

    /** The next element of a suspended batch, whatever the context says by now. */
    method ResumeDispatch(task: nat)
      requires Att.Possible(Desk(), Att.Resume(task))
      modifies this`subscriptions, this`tasks
      ensures Desk() == Att.Run(old(Desk()), Att.Resume(task))
    {
      var t := tasks[task];
      RunElement(t.rest[0]);
      Park(task, t.session, t.rest[1..]);
    }

    /** A stream loop ends. */
    method LeaveStream(sessionId: string)
      requires Valid()
      modifies this`subscriptions, this`sessions, this`sessionToIp, this`ipConnCount
      ensures Valid()
      ensures Desk() == Att.Run(old(Desk()), Att.Leave(sessionId))
      ensures Table() == S.Remove(old(Table()), sessionId)
    {
      CleanupSubscriptions(sessionId);
      assert View() == old(View());
      RemoveSession(sessionId);
    }

    // ---- Shutdown ----

    /** Every stream is told to end and every pending request fails; the connection ledger stays as it is. */
    method Stop()
      requires Valid()
      modifies this`sessions, this`pending, this`completed, sessions.Values, pending.Values
      ensures Valid()
      ensures Table() == S.Stop(old(Table()))
      ensures forall id | id in old(sessions) :: !old(sessions)[id].active && "" in old(sessions)[id].messages
      ensures Requests() == Rpc.Stop(old(Requests()))
      ensures forall id | id in old(pending) :: old(pending)[id].outcome == Some(Rpc.ServerStopped)
    {
      CloseAllStreams();
      sessions := map[];
      StopRequests();
    }

    method StopRequests()
      requires Valid()
      modifies this`pending, this`completed, pending.Values
      ensures Valid() && Requests() == Rpc.Stop(old(Requests()))
      ensures forall id | id in old(pending) :: old(pending)[id].outcome == Some(Rpc.ServerStopped)
    {
      FailAllPending();
      completed := completed + map id | id in pending :: Rpc.ServerStopped;
      pending := map[];
    }

    method CloseAllStreams()
      requires Valid()
      modifies sessions.Values
      ensures Valid()
      ensures forall id | id in sessions :: !sessions[id].active && "" in sessions[id].messages
    {
      var todo := sessions.Keys;
      while todo != {}
        invariant todo <= sessions.Keys && Valid()
        invariant forall id | id in sessions && id !in todo :: !sessions[id].active && "" in sessions[id].messages
        decreases |todo|
      {
        var id :| id in todo;
        todo := todo - {id};
        sessions[id].active := false;
        sessions[id].messages := sessions[id].messages + [""];
      }
    }

    method FailAllPending()
      requires forall a, b | a in pending && b in pending && a != b :: pending[a] != pending[b]
      requires forall id | id in pending :: pending[id].outcome.None?
      modifies pending.Values
      ensures forall id | id in pending :: pending[id].outcome == Some(Rpc.ServerStopped)
    {
      var todo := pending.Keys;
      while todo != {}
        invariant todo <= pending.Keys
        invariant forall id | id in pending ::
          pending[id].outcome == if id in todo then None else Some(Rpc.ServerStopped)
        decreases |todo|
      {
        var id :| id in todo;
        todo := todo - {id};
        pending[id].Resolve(Rpc.ServerStopped);
      }
    }
  }

  lemma PutAndTaken<K, V>(m: map<K, V>, k: K, v: V)
    requires k !in m
    ensures m[k := v] - {k} == m
  {
  }

  /** A body dispatch hands to handle_client_response first. */
  predicate LooksLikeResponse(body: Option<Json>) {
    && body.Some? && Contains(body.value, "id") && !Contains(body.value, "method")
    && (Contains(body.value, "result") || Contains(body.value, "error"))
  }
}
