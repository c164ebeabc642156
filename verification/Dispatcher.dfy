/** The JSON-RPC dispatcher: classification of one request and the batch loop. */
module Dispatcher {
  import opened Prelude
  import opened Digits
  import opened Json

  /** One run of a registered handler. */
  datatype Invocation = Invocation(name: string, params: Json)

  /** How a handler ends: a result, a JsonRpcException, or another std::exception. */
  datatype HandlerResult = Returned(value: Json) | RpcException(code: int, what: string, data: Json) | StdException(what: string)

  /**
   A handler may depend on every invocation of this dispatcher before it, on those that other dispatches
   cause while it is suspended, and on its parameters.
   */
  type Handler = (seq<Invocation>, seq<Invocation>, Json) -> HandlerResult

  /** What other dispatches run while the dispatch at hand is suspended in its k-th element. */
  type Meanwhile = nat -> seq<Invocation>

  const PARSE_ERROR := -32700
  const INVALID_REQUEST := -32600
  const METHOD_NOT_FOUND := -32601
  const INTERNAL_ERROR := -32603

  /** What the caller of the dispatcher gets: an escaping exception, nothing, or a reply. */
  datatype Response = Thrown | Silent | Reply(json: Json)

  // ---- Replies ----

  function ErrorReply(id: Json, code: int, message: string, data: Json): Json {
    Obj(map["jsonrpc" := Str("2.0"), "id" := id,
            "error" := Obj(map["code" := Int(code), "message" := Str(message), "data" := data])])
  }

  function ResultReply(id: Json, result: Json): Json {
    Obj(map["jsonrpc" := Str("2.0"), "id" := id, "result" := result])
  }

  function FinalReply(id: Json, r: HandlerResult): Json {
    match r
    case Returned(v) => ResultReply(id, v)
    case RpcException(code, what, data) => ErrorReply(id, code, what, data)
    case StdException(what) => ErrorReply(id, INTERNAL_ERROR, what, Null)
  }

  /** A JSON-RPC error object for this id, with nothing else in it. */
  predicate IsErrorReply(j: Json, id: Json, code: int, message: string, data: Json) {
    && j.Obj? && j.fields.Keys == {"jsonrpc", "id", "error"}
    && j.fields["jsonrpc"] == Str("2.0") && j.fields["id"] == id
    && var e := j.fields["error"];
      && e.Obj? && e.fields.Keys == {"code", "message", "data"}
      && e.fields["code"] == Int(code) && e.fields["message"] == Str(message) && e.fields["data"] == data
  }

  /** A JSON-RPC result for this id, with nothing else in it. */
  predicate IsResultReply(j: Json, id: Json, value: Json) {
    && j.Obj? && j.fields.Keys == {"jsonrpc", "id", "result"}
    && j.fields["jsonrpc"] == Str("2.0") && j.fields["id"] == id && j.fields["result"] == value
  }

  // ---- Classification ----

  predicate WellFormed(req: Json) {
    Contains(req, "jsonrpc") && req.fields["jsonrpc"] == Str("2.0") && Contains(req, "method")
  }

  /** The requests whose handling throws: no object at all, or a method that is no string. */
  predicate Throws(req: Json) {
    !req.Obj? || (WellFormed(req) && !req.fields["method"].Str?)
  }

  predicate IsNotification(req: Json) {
    WellFormed(req) && !Contains(req, "id")
  }

  /** The id a reply to this request carries. */
  function IdOf(req: Json): Json
    requires req.Obj?
  {
    ValueOr(req, "id", Null)
  }

  datatype Registry = Registry(methods: map<string, Handler>, notifications: set<string>)

  /** The handler run a request causes, if any. */
  function Invokes(reg: Registry, req: Json): Option<Invocation>
    requires !Throws(req)
  {
    if !WellFormed(req) then None
    else
      var name, params := req.fields["method"].s, ValueOr(req, "params", EMPTY_OBJECT);
      if if IsNotification(req) then name in reg.notifications else name in reg.methods
      then Some(Invocation(name, params)) else None
  }

  function Log(history: seq<Invocation>, call: Option<Invocation>): seq<Invocation> {
    if call.Some? then history + [call.value] else history
  }

  /** The reply to one request, given what ran before it and what runs during it. */
  function Single(reg: Registry, history: seq<Invocation>, during: seq<Invocation>, req: Json): Response {
    if Throws(req) then Thrown
    else if !WellFormed(req) then Reply(ErrorReply(IdOf(req), INVALID_REQUEST, "Invalid Request", Null))
    else if IsNotification(req) then Silent
    else
      var name := req.fields["method"].s;
      if name !in reg.methods
      then Reply(ErrorReply(IdOf(req), METHOD_NOT_FOUND, "Method not found: " + name, Null))
      else Reply(FinalReply(IdOf(req), reg.methods[name](history, during, ValueOr(req, "params", EMPTY_OBJECT))))
  }

  /** Valid as far as JSON-RPC goes; the method may still be no string. */
  predicate Proper(req: Json) {
    req.Obj? && "jsonrpc" in req.fields && req.fields["jsonrpc"] == Str("2.0") && "method" in req.fields
  }

  /**
   What becomes of one request, read off its members: section 4 and 5 of the JSON-RPC 2.0 specification
   with the two cases in which reading a member throws.
   */
  lemma RequestTells(reg: Registry, history: seq<Invocation>, during: seq<Invocation>, req: Json)
    ensures var r := Single(reg, history, during, req);
      && (r == Thrown <==> !req.Obj? || (Proper(req) && !req.fields["method"].Str?))
      && (req.Obj? && !Proper(req) ==>
            r.Reply? && IsErrorReply(r.json, if "id" in req.fields then req.fields["id"] else Null, -32600, "Invalid Request", Null))
      && (Proper(req) && req.fields["method"].Str? && "id" !in req.fields ==> r == Silent)
  {
  }

  /** A proper request with an id is answered by its handler, or told that there is none. */
  lemma HandlerAnswers(reg: Registry, history: seq<Invocation>, during: seq<Invocation>, req: Json)
    requires Proper(req) && req.fields["method"].Str? && "id" in req.fields
    ensures var r, name, id := Single(reg, history, during, req), req.fields["method"].s, req.fields["id"];
      var params := if "params" in req.fields then req.fields["params"] else Obj(map[]);
      r.Reply? &&
      if name !in reg.methods then IsErrorReply(r.json, id, -32601, "Method not found: " + name, Null)
      else
        match reg.methods[name](history, during, params)
        case Returned(v) => IsResultReply(r.json, id, v)
        case RpcException(code, what, data) => IsErrorReply(r.json, id, code, what, data)
        case StdException(what) => IsErrorReply(r.json, id, -32603, what, Null)
  {
  }

  /** Which handler runs: the one registered for the method, among those for requests or those for notifications. */
  lemma HandlerRuns(reg: Registry, req: Json)
    requires !Throws(req)
    ensures var name := if Proper(req) then req.fields["method"].s else "";
      var params := if req.Obj? && "params" in req.fields then req.fields["params"] else Obj(map[]);
      Invokes(reg, req)
      == if Proper(req) && (if "id" in req.fields then name in reg.methods else name in reg.notifications)
         then Some(Invocation(name, params)) else None
  {
  }

  // ---- A batch as a sequence of single requests ----

  /** What has run once the first k elements have been handled one by one, other dispatches included. */
  function HistoryAfter(
      reg: Registry, history: seq<Invocation>, others: Meanwhile, elems: seq<Json>, k: nat): seq<Invocation>
    requires k <= |elems| && forall i | 0 <= i < k :: !Throws(elems[i])
  {
    if k == 0 then history
    else Log(HistoryAfter(reg, history, others, elems, k - 1), Invokes(reg, elems[k - 1])) + others(k - 1)
  }

  /** The reply element k would get if it were sent alone, after the elements before it. */
  function Alone(reg: Registry, history: seq<Invocation>, others: Meanwhile, elems: seq<Json>, k: nat): Option<Json>
    requires k < |elems| && forall i | 0 <= i <= k :: !Throws(elems[i])
  {
    var r := Single(reg, HistoryAfter(reg, history, others, elems, k), others(k), elems[k]);
    if r.Reply? then Some(r.json) else None
  }

  function AllAlone(
      reg: Registry, history: seq<Invocation>, others: Meanwhile, elems: seq<Json>, k: nat): (rs: seq<Option<Json>>)
    requires k <= |elems| && forall i | 0 <= i < k :: !Throws(elems[i])
    ensures |rs| == k
  {
    seq(k, i requires 0 <= i < k => Alone(reg, history, others, elems, i))
  }

  /** The index of the first element that throws, the length if none does. */
  function FirstThrow(elems: seq<Json>): (n: nat)
    ensures n <= |elems|
    ensures forall i | 0 <= i < n :: !Throws(elems[i])
    ensures n < |elems| ==> Throws(elems[n])
  {
    if elems == [] then 0
    else if Throws(elems[|elems| - 1]) && FirstThrow(elems[..|elems| - 1]) == |elems| - 1 then |elems| - 1
    else if FirstThrow(elems[..|elems| - 1]) < |elems| - 1 then FirstThrow(elems[..|elems| - 1])
    else |elems|
  }

  /** A batch within the size limit answers with the in-order replies its elements get one by one. */
  function BatchResponse(reg: Registry, history: seq<Invocation>, others: Meanwhile, elems: seq<Json>): Response {
    if FirstThrow(elems) < |elems| then Thrown
    else
      var replies := Present(AllAlone(reg, history, others, elems, |elems|));
      if replies == [] then Silent else Reply(Arr(replies))
  }

  /** The one reply to a batch that is empty or too large. */
  function BadBatchReply(elems: seq<Json>, max: nat): Json {
    ErrorReply(Null, INVALID_REQUEST,
      if elems == [] then "Invalid Request: empty batch"
      else "Batch too large: max " + Print(max, Decimal) + " requests per batch",
      Null)
  }

  // ---- The object ----

  class JsonRpcDispatcher {
    var methods: map<string, Handler>
    var notifications: set<string>
    var maxBatchSize: nat
    /** Every handler run so far, in order. */
    var history: seq<Invocation>

    constructor ()
      ensures methods == map[] && notifications == {} && maxBatchSize == 20 && history == []
    {
      methods, notifications, maxBatchSize, history := map[], {}, 20, [];
    }

    function Reg(): Registry
      reads this
    {
      Registry(methods, notifications)
    }

    method RegisterMethod(name: string, handler: Handler)
      modifies this`methods
      ensures methods == old(methods)[name := handler]
    {
      methods := methods[name := handler];
    }

    method RegisterNotification(name: string)
      modifies this`notifications
      ensures notifications == old(notifications) + {name}
    {
      notifications := notifications + {name};
    }

    method SetMaxBatchSize(n: nat)
      modifies this`maxBatchSize
      ensures maxBatchSize == n
    {
      maxBatchSize := n;
    }

    /** `during` is what other dispatches run until this one is done. */
    method HandleSingle(req: Json, during: seq<Invocation>) returns (response: Response)
      modifies this`history
      ensures response == Single(Reg(), old(history), during, req)
      ensures history == if Throws(req) then old(history) else Log(old(history), Invokes(Reg(), req)) + during
      ensures Throws(req) || Invokes(Reg(), req).None? || history == old(history) + [Invokes(Reg(), req).value] + during
    {
      if !req.Obj? || !Contains(req, "jsonrpc") || req.fields["jsonrpc"] != Str("2.0") || !Contains(req, "method") {
        if !req.Obj? {
          return Thrown;
        }
        history := history + during;
        return Reply(ErrorReply(ValueOr(req, "id", Null), INVALID_REQUEST, "Invalid Request", Null));
      }
      if !req.fields["method"].Str? {
        return Thrown;
      }
      var name := req.fields["method"].s;
      var params := ValueOr(req, "params", EMPTY_OBJECT);
      var isNotification := !Contains(req, "id");
      var id := if isNotification then Null else req.fields["id"];
      if isNotification {
        if name in notifications {
          history := history + [Invocation(name, params)];
        }
        history := history + during;
        return Silent;
      }
      if name !in methods {
        history := history + during;
        return Reply(ErrorReply(id, METHOD_NOT_FOUND, "Method not found: " + name, Null));
      }
      var outcome := methods[name](history, during, params);
      history := history + [Invocation(name, params)] + during;
      return Reply(FinalReply(id, outcome));
    }

    /** The entry point; None is a body that is not JSON. */
    method HandleRequest(body: Option<Json>, others: Meanwhile) returns (response: Response)
      modifies this`history
      ensures body.None? ==>
        response.Reply? && IsErrorReply(response.json, Null, -32700, "Parse error", Null) && history == old(history)
      ensures body.Some? && !body.value.Arr? ==>
        && response == Single(Reg(), old(history), others(0), body.value)
        && history == (if Throws(body.value) then old(history)
                       else Log(old(history), Invokes(Reg(), body.value)) + others(0))
      ensures body.Some? && body.value.Arr? ==>
        var elems := body.value.items;
        if elems == [] || |elems| > maxBatchSize then
          var message := if elems == [] then "Invalid Request: empty batch"
                         else "Batch too large: max " + Print(maxBatchSize, Decimal) + " requests per batch";
          response.Reply? && IsErrorReply(response.json, Null, -32600, message, Null) && history == old(history)
        else
          && response == BatchResponse(Reg(), old(history), others, elems)
          && history == HistoryAfter(Reg(), old(history), others, elems, FirstThrow(elems))
    {
      if body.None? {
        return Reply(ErrorReply(Null, PARSE_ERROR, "Parse error", Null));
      }
      if !body.value.Arr? {
        response := HandleSingle(body.value, others(0));
        return;
      }
      var elems := body.value.items;
      if elems == [] {
        return Reply(BadBatchReply(elems, maxBatchSize));
      }
      if |elems| > maxBatchSize {
        return Reply(BadBatchReply(elems, maxBatchSize));
      }
      response := HandleBatch(elems, others);
    }

    /** The batch loop; it is suspended in each element, and other dispatches run meanwhile. */
    method HandleBatch(elems: seq<Json>, others: Meanwhile) returns (response: Response)
      modifies this`history
      ensures response == BatchResponse(Reg(), old(history), others, elems)
      ensures history == HistoryAfter(Reg(), old(history), others, elems, FirstThrow(elems))
    {
      var replies: seq<Json> := [];
      for i := 0 to |elems|
        invariant forall j | 0 <= j < i :: !Throws(elems[j])
        invariant history == HistoryAfter(Reg(), old(history), others, elems, i)
        invariant replies == Present(AllAlone(Reg(), old(history), others, elems, i))
      {
        var r := HandleSingle(elems[i], others(i));
        if r.Thrown? {
          FirstThrowIs(elems, i);
          return Thrown;
        }
        AllAloneNext(Reg(), old(history), others, elems, i);
        if r.Reply? {
          replies := replies + [r.json];
        }
      }
      FirstThrowIs(elems, |elems|);
      if replies == [] {
        return Silent;
      }
      return Reply(Arr(replies));
    }
  }

  lemma PresentAppend<T>(xs: seq<Option<T>>, x: Option<T>)
    ensures Present(xs + [x]) == if x.Some? then Present(xs) + [x.value] else Present(xs)
  {
    assert (xs + [x])[..|xs|] == xs;
  }

  lemma AllAloneNext(reg: Registry, history: seq<Invocation>, others: Meanwhile, elems: seq<Json>, k: nat)
    requires k < |elems| && forall i | 0 <= i <= k :: !Throws(elems[i])
    ensures var now := Alone(reg, history, others, elems, k);
      Present(AllAlone(reg, history, others, elems, k + 1))
      == Present(AllAlone(reg, history, others, elems, k)) + if now.Some? then [now.value] else []
  {
    var now := Alone(reg, history, others, elems, k);
    assert AllAlone(reg, history, others, elems, k + 1) == AllAlone(reg, history, others, elems, k) + [now];
    PresentAppend(AllAlone(reg, history, others, elems, k), now);
  }

  lemma FirstThrowIs(elems: seq<Json>, n: nat)
    requires n <= |elems| && forall i | 0 <= i < n :: !Throws(elems[i])
    requires n < |elems| ==> Throws(elems[n])
    ensures FirstThrow(elems) == n
  {
  }

  // ---- What a batch promises ----

  /** The ids of the elements that are owed a reply, in order. */
  function OwedIds(elems: seq<Json>): seq<Json>
    requires forall e | e in elems :: e.Obj?
  {
    if elems == [] then []
    else
      var last := elems[|elems| - 1];
      OwedIds(elems[..|elems| - 1]) + if IsNotification(last) then [] else [IdOf(last)]
  }

  predicate ExactlyOneOutcome(reply: Json) {
    && Contains(reply, "jsonrpc") && reply.fields["jsonrpc"] == Str("2.0")
    && Contains(reply, "id")
    && (Contains(reply, "result") <==> !Contains(reply, "error"))
  }

  lemma SingleReplyShape(reg: Registry, history: seq<Invocation>, during: seq<Invocation>, req: Json)
    requires !Throws(req)
    ensures var r := Single(reg, history, during, req);
      && (r.Silent? <==> IsNotification(req)) && !r.Thrown?
      && (r.Reply? ==> ExactlyOneOutcome(r.json) && r.json.fields["id"] == IdOf(req))
  {
  }

  /** The positions of the elements among the first k that are owed a reply. */
  function Owed(elems: seq<Json>, k: nat): (ps: seq<nat>)
    requires k <= |elems|
    ensures forall i | 0 <= i < |ps| :: ps[i] < k
  {
    if k == 0 then [] else Owed(elems, k - 1) + if IsNotification(elems[k - 1]) then [] else [k - 1]
  }

  /** They are in order, and exactly those of the elements that are no valid notification. */
  lemma {:induction false} OwedInOrder(elems: seq<Json>, k: nat)
    requires k <= |elems|
    ensures var ps := Owed(elems, k);
      && (forall i, j | 0 <= i < j < |ps| :: ps[i] < ps[j])
      && (forall p: nat | p < k :: p in ps <==> !IsNotification(elems[p]))
  {
    if k > 0 {
      OwedInOrder(elems, k - 1);
    }
  }

  /** The reply is the one the element at position p gets in its place, and carries that element's id. */
  predicate Answers(
      reg: Registry, history: seq<Invocation>, others: Meanwhile, elems: seq<Json>, p: nat, reply: Json)
    requires p < |elems| && forall i | 0 <= i <= p :: !Throws(elems[i])
  {
    && Single(reg, HistoryAfter(reg, history, others, elems, p), others(p), elems[p]) == Reply(reply)
    && ExactlyOneOutcome(reply)
    && reply.fields["id"] == if "id" in elems[p].fields then elems[p].fields["id"] else Null
  }

  lemma AloneAnswers(reg: Registry, history: seq<Invocation>, others: Meanwhile, elems: seq<Json>, p: nat)
    requires p < |elems| && forall i | 0 <= i <= p :: !Throws(elems[i])
    ensures var now := Alone(reg, history, others, elems, p);
      && (now.Some? <==> !IsNotification(elems[p]))
      && (now.Some? ==> Answers(reg, history, others, elems, p, now.value))
  {
    SingleReplyShape(reg, HistoryAfter(reg, history, others, elems, p), others(p), elems[p]);
  }

  lemma {:induction false} OwedArePresent<T>(elems: seq<Json>, xs: seq<Option<T>>)
    requires |xs| <= |elems| && forall i | 0 <= i < |xs| :: xs[i].Some? <==> !IsNotification(elems[i])
    ensures Owed(elems, |xs|) == PresentAt(xs)
  {
    if xs != [] {
      OwedArePresent(elems, xs[..|xs| - 1]);
    }
  }

  lemma {:induction false} OwedIdsAre(elems: seq<Json>, k: nat)
    requires k <= |elems| && forall e | e in elems :: e.Obj?
    ensures var owed, ids := Owed(elems, k), OwedIds(elems[..k]);
      |ids| == |owed| && forall i | 0 <= i < |ids| :: ids[i] == IdOf(elems[owed[i]])
  {
    if k > 0 {
      OwedIdsAre(elems, k - 1);
      assert elems[..k][..k - 1] == elems[..k - 1];
    }
  }

  /**
   The answer to a batch none of whose elements throws. If any element is owed a reply, it is an array
   with exactly one reply for each of these elements, in their order: the reply the element gets in its
   place, with the element's id (null where it has none) and exactly one of result and error.
   */
  lemma BatchRepliesInOrder(reg: Registry, history: seq<Invocation>, others: Meanwhile, elems: seq<Json>)
    requires forall i | 0 <= i < |elems| :: !Throws(elems[i])
    ensures var response, owed := BatchResponse(reg, history, others, elems), Owed(elems, |elems|);
      && (forall i, j | 0 <= i < j < |owed| :: owed[i] < owed[j])
      && (forall p: nat | p < |elems| :: p in owed <==> !IsNotification(elems[p]))
      && (response == Silent <==> owed == [])
      && (owed != [] ==>
            && response.Reply? && response.json.Arr? && |response.json.items| == |owed| == |OwedIds(elems)|
            && forall i | 0 <= i < |owed| ::
                 && Answers(reg, history, others, elems, owed[i], response.json.items[i])
                 && response.json.items[i].fields["id"] == OwedIds(elems)[i])
  {
    var alone := AllAlone(reg, history, others, elems, |elems|);
    var owed := Owed(elems, |elems|);
    forall p: nat | p < |elems|
      ensures alone[p].Some? <==> !IsNotification(elems[p])
      ensures alone[p].Some? ==> Answers(reg, history, others, elems, p, alone[p].value)
    {
      AloneAnswers(reg, history, others, elems, p);
    }
    OwedArePresent(elems, alone);
    PresentIs(alone);
    OwedInOrder(elems, |elems|);
    OwedIdsAre(elems, |elems|);
    assert elems[..|elems|] == elems;
  }

  lemma {:induction false} NothingOwedIff(elems: seq<Json>)
    requires forall e | e in elems :: e.Obj?
    ensures OwedIds(elems) == [] <==> forall e | e in elems :: IsNotification(e)
  {
    if elems != [] {
      var front, last := elems[..|elems| - 1], elems[|elems| - 1];
      NothingOwedIff(front);
      assert forall e :: e in elems <==> e in front || e == last;
    }
  }

  /** A batch is answered by silence if and only if all its elements are valid notifications. */
  lemma BatchSilentIff(reg: Registry, history: seq<Invocation>, others: Meanwhile, elems: seq<Json>)
    requires elems != []
    ensures BatchResponse(reg, history, others, elems).Silent? <==> forall e | e in elems :: !Throws(e) && IsNotification(e)
  {
    if FirstThrow(elems) < |elems| {
      assert elems[FirstThrow(elems)] in elems;
    } else {
      forall e | e in elems ensures !Throws(e) {
        var i :| 0 <= i < |elems| && elems[i] == e;
      }
      BatchRepliesInOrder(reg, history, others, elems);
      NothingOwedIff(elems);
    }
  }

  /** A batch fails as a whole if and only if some element throws; the elements before it have run. */
  lemma BatchThrowsIff(reg: Registry, history: seq<Invocation>, others: Meanwhile, elems: seq<Json>)
    ensures BatchResponse(reg, history, others, elems).Thrown? <==> exists e | e in elems :: Throws(e)
  {
  }

  /** What runs from the start of element i to its end: its own handler, if it has one, then what others do. */
  function RunOf(reg: Registry, others: Meanwhile, elems: seq<Json>, i: nat): seq<Invocation>
    requires i < |elems| && !Throws(elems[i])
  {
    (if Invokes(reg, elems[i]).Some? then [Invokes(reg, elems[i]).value] else []) + others(i)
  }

  lemma LogGrows(history: seq<Invocation>, more: seq<Invocation>, call: Option<Invocation>, during: seq<Invocation>)
    ensures Log(history + more, call) + during
         == history + (more + ((if call.Some? then [call.value] else []) + during))
  {
  }

  /** The handlers run by a batch are those of its elements, in the elements' order, with other dispatches in between. */
  lemma {:induction false} BatchRunsInOrder(
      reg: Registry, history: seq<Invocation>, others: Meanwhile, elems: seq<Json>, k: nat)
    requires k <= |elems| && forall i | 0 <= i < k :: !Throws(elems[i])
    ensures HistoryAfter(reg, history, others, elems, k)
         == history + Concat(seq(k, i requires 0 <= i < k => RunOf(reg, others, elems, i)))
  {
    if k > 0 {
      BatchRunsInOrder(reg, history, others, elems, k - 1);
      var front := seq(k - 1, i requires 0 <= i < k - 1 => RunOf(reg, others, elems, i));
      var last := RunOf(reg, others, elems, k - 1);
      assert seq(k, i requires 0 <= i < k => RunOf(reg, others, elems, i)) == front + [last];
      ConcatAppend(front, last);
      LogGrows(history, Concat(front), Invokes(reg, elems[k - 1]), others(k - 1));
    }
  }
}
