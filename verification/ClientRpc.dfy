/** Requests the server sends to its clients (sampling, elicitation), on one shard. */
module ClientRpc {
  import opened Prelude
  import opened Digits
  import opened Json

  /** How a request ended. */
  datatype Outcome = Result(value: Json) | ClientError(message: string) | ServerStopped

  /** The pending requests, and the outcomes of the others. */
  datatype Rpc = Rpc(counter: nat, pending: set<nat>, completed: map<nat, Outcome>)

  const NO_REQUESTS := Rpc(0, {}, map[])

  /** get<uint64_t>: numbers are converted, anything else throws. A negative or huge fraction is undefined in C++. */
  function ToUint64(j: Json): (r: Option<nat>)
    ensures r.Some? ==> r.value < TWO_64
  {
    match j
    case Int(n) => Some(n % TWO_64)
    case Real(r) => if 0.0 <= r && r.Floor < TWO_64 then Some(r.Floor) else None
    case _ => None
  }

  /** What a response says; None when reading its error member throws. */
  function OutcomeOf(response: Json): Option<Outcome> {
    if Contains(response, "result") then Some(Result(response.fields["result"]))
    else if !Contains(response, "error") || !response.fields["error"].Obj? then None
    else
      match ValueOr(response.fields["error"], "message", Str("client error"))
      case Str(m) => Some(ClientError(m))
      case _ => None
  }

  /** The pending request a response answers. */
  function Answers(r: Rpc, response: Json): Option<nat> {
    if !Contains(response, "id") then None
    else
      match ToUint64(response.fields["id"])
      case Some(id) => if id in r.pending && OutcomeOf(response).Some? then Some(id) else None
      case None => None
  }

  /** send_request_to_client */
  function Send(r: Rpc): (Rpc, nat) {
    (r.(counter := r.counter + 1, pending := r.pending + {r.counter + 1}), r.counter + 1)
  }

  /** handle_client_response; a response that answers nothing, or throws, leaves everything as it is. */
  function Handle(r: Rpc, response: Json): Rpc {
    match Answers(r, response)
    case Some(id) => r.(pending := r.pending - {id}, completed := r.completed[id := OutcomeOf(response).value])
    case None => r
  }

  function Stop(r: Rpc): Rpc {
    r.(pending := {}, completed := r.completed + map id | id in r.pending :: ServerStopped)
  }

  // ---- Runs ----

  datatype Event = Sent | Received(response: Json) | Stopped

  function Step(r: Rpc, e: Event): Rpc {
    match e
    case Sent => Send(r).0
    case Received(response) => Handle(r, response)
    case Stopped => Stop(r)
  }

  function After(es: seq<Event>, k: nat): Rpc
    requires k <= |es|
  {
    if k == 0 then NO_REQUESTS else Step(After(es, k - 1), es[k - 1])
  }

  /** Every id issued is pending or completed, and never both. */
  ghost predicate Accounted(r: Rpc) {
    && r.pending !! r.completed.Keys
    && (forall id: nat :: id in r.pending || id in r.completed <==> 1 <= id <= r.counter)
  }

  lemma StepKeepsAccounts(r: Rpc, e: Event)
    requires Accounted(r)
    ensures Accounted(Step(r, e))
  {
  }

  lemma {:induction false} AlwaysAccounted(es: seq<Event>, k: nat)
    requires k <= |es|
    ensures Accounted(After(es, k))
  {
    if k > 0 {
      AlwaysAccounted(es, k - 1);
      StepKeepsAccounts(After(es, k - 1), es[k - 1]);
    }
  }

  function Upto(n: nat): (s: set<nat>)
    ensures |s| == n && forall i: nat :: i in s <==> 1 <= i <= n
  {
    if n == 0 then {} else Upto(n - 1) + {n}
  }

  /** Conservation: requests issued = pending + completed, after every event. */
  lemma IssuedIsPendingPlusCompleted(es: seq<Event>, k: nat)
    requires k <= |es|
    ensures var r := After(es, k); r.counter == |r.pending| + |r.completed|
  {
    var r := After(es, k);
    AlwaysAccounted(es, k);
    assert r.pending + r.completed.Keys == Upto(r.counter);
  }

  /** The requests sent among the first k events. */
  function Sents(es: seq<Event>, k: nat): nat
    requires k <= |es|
  {
    if k == 0 then 0 else Sents(es, k - 1) + if es[k - 1].Sent? then 1 else 0
  }

  /** Ids are given out one by one: after k events as many as there were requests, and each is pending right after it was sent. */
  lemma {:induction false} IdsCountRequests(es: seq<Event>, k: nat)
    requires k <= |es|
    ensures After(es, k).counter == Sents(es, k)
    ensures k < |es| && es[k].Sent? ==>
      After(es, k + 1).pending == After(es, k).pending + {Sents(es, k + 1)} && After(es, k + 1).completed == After(es, k).completed
  {
    if k > 0 {
      IdsCountRequests(es, k - 1);
    }
  }

  /** An id is never issued twice: a new request's id is one that no request had before. */
  lemma IdsAreNeverReused(es: seq<Event>, k: nat)
    requires k <= |es|
    ensures var r := After(es, k); Send(r).1 !in r.pending && Send(r).1 !in r.completed && Send(r).1 in Send(r).0.pending
  {
    AlwaysAccounted(es, k);
  }

  /** A completed request keeps its outcome for good: it completes at most once. */
  lemma {:induction false} OutcomesAreFinal(es: seq<Event>, i: nat, k: nat, id: nat)
    requires i <= k <= |es| && id in After(es, i).completed
    ensures id in After(es, k).completed && After(es, k).completed[id] == After(es, i).completed[id]
    decreases k
  {
    if i < k {
      OutcomesAreFinal(es, i, k - 1, id);
      AlwaysAccounted(es, k - 1);
    }
  }

  /** Event j completes request id with this outcome. */
  ghost predicate Completes(es: seq<Event>, j: nat, id: nat, o: Outcome)
    requires j < |es|
  {
    && id in After(es, j).pending
    && match es[j]
       case Sent => false
       case Received(response) =>
         Contains(response, "id") && ToUint64(response.fields["id"]) == Some(id) && OutcomeOf(response) == Some(o)
       case Stopped => o == ServerStopped
  }

  /** Every outcome comes from a response that carries the request's own id, or from stop. */
  lemma {:induction false} OutcomesHaveACause(es: seq<Event>, k: nat, id: nat) returns (j: nat)
    requires k <= |es| && id in After(es, k).completed
    ensures j < k && Completes(es, j, id, After(es, k).completed[id])
  {
    if id in After(es, k - 1).completed {
      j := OutcomesHaveACause(es, k - 1, id);
      OutcomesAreFinal(es, k - 1, k, id);
    } else {
      j := k - 1;
    }
  }

  /** And every such event does complete it. */
  lemma CausesComplete(es: seq<Event>, j: nat, id: nat, o: Outcome)
    requires j < |es| && Completes(es, j, id, o)
    ensures id !in After(es, j + 1).pending
    ensures id in After(es, j + 1).completed && After(es, j + 1).completed[id] == o
  {
    AlwaysAccounted(es, j);
  }

  /** No two events complete the same request. */
  lemma CompletesOnce(es: seq<Event>, i: nat, j: nat, id: nat, o: Outcome, p: Outcome)
    requires i <= j < |es| && Completes(es, i, id, o) && Completes(es, j, id, p)
    ensures i == j && o == p
  {
    if i < j {
      CausesComplete(es, i, id, o);
      OutcomesAreFinal(es, i + 1, j, id);
      AlwaysAccounted(es, j);
    }
  }

  /** Some event before k completes the request. */
  ghost predicate Done(es: seq<Event>, k: nat, id: nat)
    requires k <= |es|
  {
    exists j: nat, o: Outcome :: j < k && Completes(es, j, id, o)
  }

  /**
   What the two tables mean, in every run: a request is completed if and only if a response with its id,
   or a stop, found it pending, and then with that outcome; it is pending if and only if it has been
   issued and no such event has happened.
   */
  lemma TablesTellHistory(es: seq<Event>, k: nat, id: nat)
    requires k <= |es|
    ensures var r := After(es, k);
      && (id in r.completed <==> Done(es, k, id))
      && (id in r.pending <==> 1 <= id <= r.counter && !Done(es, k, id))
    ensures forall j: nat, o: Outcome | j < k && Completes(es, j, id, o) ::
      id in After(es, k).completed && After(es, k).completed[id] == o
  {
    AlwaysAccounted(es, k);
    if id in After(es, k).completed {
      var j := OutcomesHaveACause(es, k, id);
      assert Completes(es, j, id, After(es, k).completed[id]);
    }
    forall j: nat, o: Outcome | j < k && Completes(es, j, id, o)
      ensures id in After(es, k).completed && After(es, k).completed[id] == o
    {
      CausesComplete(es, j, id, o);
      OutcomesAreFinal(es, j + 1, k, id);
    }
  }

  lemma StopLeavesNonePending(es: seq<Event>, k: nat)
    requires k < |es| && es[k].Stopped?
    ensures After(es, k + 1).pending == {}
    ensures forall id | id in After(es, k).pending ::
      id in After(es, k + 1).completed && After(es, k + 1).completed[id] == ServerStopped
  {
  }

  /** A request that is pending was issued after the last stop: a stop fails everything issued before it. */
  lemma {:induction false} PendingWasSentSince(es: seq<Event>, k: nat, id: nat) returns (j: nat)
    requires k <= |es| && id in After(es, k).pending
    ensures j < k && es[j].Sent? && id == After(es, j).counter + 1
    ensures forall i | j < i < k :: !es[i].Stopped?
  {
    if id in After(es, k - 1).pending {
      j := PendingWasSentSince(es, k - 1, id);
    } else {
      j := k - 1;
    }
  }

  /** A response of a client with this id. */
  function ResultFor(id: Json, value: Json): Json {
    Obj(map["id" := id, "result" := value])
  }

  /**
   A fractional id is cut off before it is compared. In every run, a response with id x answers exactly
   the request numbered with the integer part of x, if that one is outstanding, as if it carried its number.
   */
  lemma FractionAnswersIff(es: seq<Event>, k: nat, x: real, value: Json)
    requires k <= |es| && 1.0 <= x && x.Floor < TWO_64
    ensures var r, n := After(es, k), x.Floor;
      && Handle(r, ResultFor(Real(x), value)) == Handle(r, ResultFor(Int(n), value))
      && Answers(r, ResultFor(Real(x), value)) == (if n <= r.counter && !Done(es, k, n) then Some(n) else None)
  {
    TablesTellHistory(es, k, x.Floor);
  }

  /** Integer ids are read modulo 2^64: in every run such a response answers the outstanding request its id is congruent to. */
  lemma IntegerAnswersIff(es: seq<Event>, k: nat, m: int, n: nat, value: Json)
    requires k <= |es| && n < TWO_64
    ensures Answers(After(es, k), ResultFor(Int(m), value)) == Some(n)
       <==> (m - n) % TWO_64 == 0 && 1 <= n <= After(es, k).counter && !Done(es, k, n)
  {
    TablesTellHistory(es, k, n);
    Congruent(m, n);
  }

  lemma Congruent(m: int, n: nat)
    requires n < TWO_64
    ensures m % TWO_64 == n <==> (m - n) % TWO_64 == 0
  {
    var q := m / TWO_64;
    assert m == q * TWO_64 + m % TWO_64;
    if (m - n) % TWO_64 == 0 {
      var p := (m - n) / TWO_64;
      assert m - n == p * TWO_64;
      assert (q - p) * TWO_64 == n - m % TWO_64;
      assert q == p;
    }
  }

  /** The client echoes the id of the request just sent: that request is completed, the others stay as they are. */
  lemma OwnIdCompletes(r: Rpc, response: Json, value: Json)
    requires Accounted(r) && r.counter + 1 < TWO_64
    requires response == ResultFor(Int(r.counter + 1), value)
    ensures var sent := Send(r).0;
      && Answers(sent, response) == Some(r.counter + 1) && OutcomeOf(response) == Some(Result(value))
      && Handle(sent, response).pending == r.pending
      && Handle(sent, response).completed == r.completed[r.counter + 1 := Result(value)]
      && Accounted(Handle(sent, response))
  {
    assert Send(r).0.pending - {r.counter + 1} == r.pending;
    StepKeepsAccounts(r, Sent);
    StepKeepsAccounts(Send(r).0, Received(response));
  }

  /** The text of an error the client reports: its message, or the default if there is none. */
  predicate Reports(response: Json, m: string) {
    && Contains(response, "error") && response.fields["error"].Obj?
    && if "message" in response.fields["error"].fields then response.fields["error"].fields["message"] == Str(m)
       else m == "client error"
  }

  /**
   How requests end, in every run: with a result exactly from a response that has one, with a client
   error exactly from a response that has only an error, with its text, and otherwise by a stop.
   */
  lemma EndsAsTold(es: seq<Event>, k: nat, id: nat) returns (j: nat)
    requires k <= |es| && id in After(es, k).completed
    ensures j < k && id in After(es, j).pending
    ensures match After(es, k).completed[id]
      case Result(v) => es[j].Received? && Contains(es[j].response, "result") && es[j].response.fields["result"] == v
      case ClientError(m) => es[j].Received? && !Contains(es[j].response, "result") && Reports(es[j].response, m)
      case ServerStopped => es[j].Stopped?
    ensures es[j].Received? ==>
      Contains(es[j].response, "id") && ToUint64(es[j].response.fields["id"]) == Some(id)
  {
    j := OutcomesHaveACause(es, k, id);
  }

  /** And a response tells how: every such response to a pending request does end it that way. */
  lemma TellingEnds(es: seq<Event>, j: nat, id: nat)
    requires j < |es| && id in After(es, j).pending && es[j].Received?
    requires Contains(es[j].response, "id") && ToUint64(es[j].response.fields["id"]) == Some(id)
    ensures Contains(es[j].response, "result") ==>
      id in After(es, j + 1).completed && After(es, j + 1).completed[id] == Result(es[j].response.fields["result"])
    ensures forall m | !Contains(es[j].response, "result") && Reports(es[j].response, m) ::
      id in After(es, j + 1).completed && After(es, j + 1).completed[id] == ClientError(m)
    ensures !Contains(es[j].response, "result") && (forall m :: !Reports(es[j].response, m)) ==>
      After(es, j + 1) == After(es, j)
  {
    var response := es[j].response;
    if Contains(response, "error") && response.fields["error"].Obj? && !Contains(response, "result") {
      var error := response.fields["error"];
      if "message" !in error.fields {
        assert Reports(response, "client error");
      } else if error.fields["message"].Str? {
        assert Reports(response, error.fields["message"].s);
      }
    }
  }
}
