/**
 Concurrent dispatches on one shard share one "current session". A dispatch sets it and runs its first
 element without a suspension; the later elements of a batch run whenever the scheduler gets to them.
 */
module Attribution {
  import opened Prelude
  import opened Json
  import opened Subscriptions
  import Dispatcher

  /** A dispatch that still has elements of its batch to run. */
  datatype Task = Task(session: string, rest: seq<Json>)

  datatype Desk = Desk(maxBatchSize: nat, current: string, subs: Subs, tasks: map<nat, Task>)

  function Idle(maxBatchSize: nat): Desk {
    Desk(maxBatchSize, "", map[], map[])
  }

  /**
   Begin: a body posted by `session` is dispatched under a task number; None is a body that is no JSON.
   Resume: the next element of a pending batch runs. Leave: a stream loop ends and cleans up after its session.
   */
  datatype Slice =
    | Begin(task: nat, session: string, body: Option<Json>)
    | Resume(task: nat)
    | Leave(session: string)

  predicate Possible(d: Desk, s: Slice) {
    match s
    case Begin(task, _, _) => task !in d.tasks
    case Resume(task) => task in d.tasks && d.tasks[task].rest != []
    case Leave(_) => true
  }

  // ---- What the code does with a body ----

  /** The uri the two handlers read; None when reading it throws, which the dispatcher turns into an error reply. */
  function UriOf(params: Json): Option<string> {
    if params.Obj? && ValueOr(params, "uri", Str("")).Str? then Some(ValueOr(params, "uri", Str("")).s) else None
  }

  /** One element: the subscribe and unsubscribe handlers ignore an empty uri, all others leave the table alone. */
  function Handle(subs: Subs, session: string, req: Json): Subs {
    if Dispatcher.Throws(req) || !Dispatcher.WellFormed(req) || Dispatcher.IsNotification(req) then subs
    else
      match UriOf(ValueOr(req, "params", EMPTY_OBJECT))
      case None => subs
      case Some(uri) =>
        if uri == "" then subs
        else if req.fields["method"] == Str("resources/subscribe") then Subscribe(subs, session, uri)
        else if req.fields["method"] == Str("resources/unsubscribe") then Unsubscribe(subs, session, uri)
        else subs
  }

  /** The elements a dispatch runs: a batch ends at the first element that throws, a bad one runs nothing. */
  function Elements(body: Option<Json>, maxBatchSize: nat): seq<Json> {
    if body.None? then []
    else if !body.value.Arr? then [body.value]
    else if |body.value.items| > maxBatchSize then []
    else body.value.items[..Dispatcher.FirstThrow(body.value.items)]
  }

  function Park(tasks: map<nat, Task>, n: nat, session: string, rest: seq<Json>): map<nat, Task> {
    if rest == [] then tasks - {n} else tasks[n := Task(session, rest)]
  }

  /** One element runs: its handler reads the session from the shared context. */
  function Element(d: Desk, req: Json): Desk {
    d.(subs := Handle(d.subs, d.current, req))
  }

  /** dispatch sets the context, for itself and for whatever else is running. */
  function Enter(d: Desk, session: string): Desk {
    d.(current := session)
  }

  function Run(d: Desk, s: Slice): Desk
    requires Possible(d, s)
  {
    match s
    case Begin(task, session, body) =>
      var todo := Elements(body, d.maxBatchSize);
      if todo == [] then Enter(d, session)
      else
        var e := Element(Enter(d, session), todo[0]);
        e.(tasks := Park(e.tasks, task, session, todo[1..]))
    case Resume(task) =>
      var t := d.tasks[task];
      var e := Element(d, t.rest[0]);
      e.(tasks := Park(e.tasks, task, t.session, t.rest[1..]))
    case Leave(session) => d.(subs := Cleanup(d.subs, session))
  }

  predicate Schedule(d: Desk, ss: seq<Slice>)
    decreases |ss|, 0
  {
    ss == [] || (Schedule(d, ss[..|ss| - 1]) && Possible(RunAll(d, ss[..|ss| - 1]), ss[|ss| - 1]))
  }

  function RunAll(d: Desk, ss: seq<Slice>): Desk
    requires Schedule(d, ss)
    decreases |ss|, 1
  {
    if ss == [] then d else Run(RunAll(d, ss[..|ss| - 1]), ss[|ss| - 1])
  }

  // ---- What a request asks for ----

  /** A call of this method, with an id and a non-empty uri. */
  predicate Calls(req: Json, name: string) {
    && req.Obj? && {"jsonrpc", "id", "method", "params"} <= req.fields.Keys
    && req.fields["jsonrpc"] == Str("2.0") && req.fields["method"] == Str(name)
    && var params := req.fields["params"];
      params.Obj? && "uri" in params.fields && params.fields["uri"].Str? && params.fields["uri"] != Str("")
  }

  function UriIn(req: Json, name: string): string
    requires Calls(req, name)
  {
    req.fields["params"].fields["uri"].s
  }

  /** The relation a request of a session ought to leave. */
  function Intended(r: set<(string, string)>, session: string, req: Option<Json>): set<(string, string)> {
    if session == "" || req.None? then r
    else if Calls(req.value, "resources/subscribe") then r + {(UriIn(req.value, "resources/subscribe"), session)}
    else if Calls(req.value, "resources/unsubscribe") then r - {(UriIn(req.value, "resources/unsubscribe"), session)}
    else r
  }

  lemma HandleMeetsIntent(subs: Subs, session: string, req: Json)
    ensures Rel(Handle(subs, session, req)) == Intended(Rel(subs), session, Some(req))
    ensures NoEmptySets(subs) ==> NoEmptySets(Handle(subs, session, req))
  {
    if session != "" {
      if Calls(req, "resources/subscribe") {
        SubscribeInserts(subs, session, UriIn(req, "resources/subscribe"));
      } else if Calls(req, "resources/unsubscribe") {
        UnsubscribeDeletes(subs, session, UriIn(req, "resources/unsubscribe"));
      }
    }
  }

  /**
   From a single request to the relation, whatever else is on the desk: a call of resources/subscribe
   inserts exactly its uri and its session, a call of resources/unsubscribe deletes exactly that pair,
   and every other body that is no batch leaves the table as it is.
   */
  lemma RequestDoesWhatItAsks(d: Desk, task: nat, session: string, body: Option<Json>)
    requires task !in d.tasks && !(body.Some? && body.value.Arr?)
    ensures var after := Run(d, Begin(task, session, body));
      && after.current == session && after.tasks == d.tasks
      && (session != "" && body.Some? && Calls(body.value, "resources/subscribe") ==>
            Rel(after.subs) == Rel(d.subs) + {(body.value.fields["params"].fields["uri"].s, session)})
      && (session != "" && body.Some? && Calls(body.value, "resources/unsubscribe") ==>
            Rel(after.subs) == Rel(d.subs) - {(body.value.fields["params"].fields["uri"].s, session)})
      && (session == "" || body.None?
          || !(Calls(body.value, "resources/subscribe") || Calls(body.value, "resources/unsubscribe")) ==>
            after.subs == d.subs)
  {
    if body.Some? {
      HandleMeetsIntent(d.subs, session, body.value);
      assert [body.value][1..] == [];
    }
  }

  // ---- What each slice means to its own session ----

  /** The session that posted what slice k runs, and the request it runs, if any. */
  function Asked(d: Desk, ss: seq<Slice>, k: nat): (string, Option<Json>)
    requires k < |ss| && Schedule(d, ss[..k]) && Possible(RunAll(d, ss[..k]), ss[k])
  {
    match ss[k]
    case Begin(_, session, body) =>
      var todo := Elements(body, d.maxBatchSize);
      (session, if todo == [] then None else Some(todo[0]))
    case Resume(task) =>
      var t := RunAll(d, ss[..k]).tasks[task];
      (t.session, Some(t.rest[0]))
    case Leave(session) => (session, None)
  }

  /** The session whose dispatch began last among the first k slices; the one now in the context if none did. */
  function LastBegun(d: Desk, ss: seq<Slice>, k: nat): string
    requires k <= |ss|
  {
    if k == 0 then d.current
    else if ss[k - 1].Begin? then ss[k - 1].session
    else LastBegun(d, ss, k - 1)
  }

  lemma {:induction false} ScheduleTrail(d: Desk, ss: seq<Slice>, k: nat)
    requires Schedule(d, ss) && k < |ss|
    ensures Schedule(d, ss[..k]) && Possible(RunAll(d, ss[..k]), ss[k])
    ensures Schedule(d, ss[..k + 1]) && RunAll(d, ss[..k + 1]) == Run(RunAll(d, ss[..k]), ss[k])
    decreases |ss|
  {
    var front := ss[..|ss| - 1];
    if k < |front| {
      ScheduleTrail(d, front, k);
      assert front[..k] == ss[..k] && front[..k + 1] == ss[..k + 1] && front[k] == ss[k];
    } else {
      assert ss[..k] == front && ss[..k + 1] == ss;
      assert ss[..k + 1][..k] == front;
    }
  }

  /** The shared context always names the session whose dispatch began last. */
  lemma {:induction false} CurrentIsLastBegun(d: Desk, ss: seq<Slice>, k: nat)
    requires Schedule(d, ss) && k <= |ss|
    ensures Schedule(d, ss[..k]) && RunAll(d, ss[..k]).current == LastBegun(d, ss, k)
    ensures RunAll(d, ss[..k]).maxBatchSize == d.maxBatchSize
  {
    if k > 0 {
      CurrentIsLastBegun(d, ss, k - 1);
      ScheduleTrail(d, ss, k - 1);
    }
  }

  /** The session a slice acts for: its handler finds in the context what the last dispatch to begin put there. */
  function Actor(d: Desk, ss: seq<Slice>, k: nat): string
    requires k < |ss|
  {
    LastBegun(d, ss, if ss[k].Begin? then k + 1 else k)
  }

  /**
   Attribution under interleaving. Whatever else is scheduled, a slice acts for the session whose
   dispatch began last, its own included. So the first element of every dispatch, hence every request
   that is not a batch, acts for its own session.
   */
  lemma SliceActsFor(d: Desk, ss: seq<Slice>, k: nat)
    requires Schedule(d, ss) && k < |ss| && !ss[k].Leave?
    ensures Schedule(d, ss[..k]) && Schedule(d, ss[..k + 1]) && Possible(RunAll(d, ss[..k]), ss[k])
    ensures Rel(RunAll(d, ss[..k + 1]).subs)
         == Intended(Rel(RunAll(d, ss[..k]).subs), Actor(d, ss, k), Asked(d, ss, k).1)
    ensures ss[k].Begin? ==> Actor(d, ss, k) == Asked(d, ss, k).0
  {
    ScheduleTrail(d, ss, k);
    CurrentIsLastBegun(d, ss, k);
    var request := Asked(d, ss, k).1;
    if request.Some? {
      HandleMeetsIntent(RunAll(d, ss[..k]).subs, Actor(d, ss, k), request.value);
    }
  }

  /** Acting for another session comes to the same only if it changes nothing for either. */
  lemma OtherActorIff(r: set<(string, string)>, asker: string, actor: string, req: Option<Json>)
    ensures Intended(r, actor, req) == Intended(r, asker, req)
       <==> actor == asker || (Intended(r, asker, req) == r && Intended(r, actor, req) == r)
  {
    if actor != asker && req.Some? {
      if Calls(req.value, "resources/subscribe") {
        OtherPairs(r, asker, actor, UriIn(req.value, "resources/subscribe"));
      } else if Calls(req.value, "resources/unsubscribe") {
        OtherPairs(r, asker, actor, UriIn(req.value, "resources/unsubscribe"));
      }
    }
  }

  lemma OtherPairs(r: set<(string, string)>, a: string, b: string, uri: string)
    requires a != b
    ensures r + {(uri, a)} == r + {(uri, b)} ==> (uri, a) in r && (uri, b) in r
    ensures r - {(uri, a)} == r - {(uri, b)} ==> (uri, a) !in r && (uri, b) !in r
    ensures forall s :: (r + {(uri, s)} == r <==> (uri, s) in r) && (r - {(uri, s)} == r <==> (uri, s) !in r)
  {
    assert (uri, a) != (uri, b);
    assert (uri, a) in r + {(uri, a)} && (uri, b) in r + {(uri, b)};
    assert (uri, a) !in r - {(uri, a)} && (uri, b) !in r - {(uri, b)};
    forall s ensures (r + {(uri, s)} == r <==> (uri, s) in r) && (r - {(uri, s)} == r <==> (uri, s) !in r) {
      assert (uri, s) in r + {(uri, s)} && (uri, s) !in r - {(uri, s)};
    }
  }

  /**
   Exactly when a later batch element does what its own session asked for: when that session's dispatch
   is still the one that began last, or the element changes nothing for its own session nor for the
   session it acts for.
   */
  lemma LaterElementIsRightIff(d: Desk, ss: seq<Slice>, k: nat)
    requires Schedule(d, ss) && k < |ss| && ss[k].Resume?
    ensures Schedule(d, ss[..k]) && Schedule(d, ss[..k + 1]) && Possible(RunAll(d, ss[..k]), ss[k])
    ensures var (asker, request) := Asked(d, ss, k);
      var actor := LastBegun(d, ss, k);
      var before, after := Rel(RunAll(d, ss[..k]).subs), Rel(RunAll(d, ss[..k + 1]).subs);
      after == Intended(before, asker, request)
      <==> actor == asker || (Intended(before, asker, request) == before && Intended(before, actor, request) == before)
  {
    SliceActsFor(d, ss, k);
    var (asker, request) := Asked(d, ss, k);
    OtherActorIff(Rel(RunAll(d, ss[..k]).subs), asker, LastBegun(d, ss, k), request);
  }

  /** The relation that results if every slice acts for the session that asked for it. */
  function Ideal(d: Desk, ss: seq<Slice>): set<(string, string)>
    requires Schedule(d, ss)
    decreases |ss|
  {
    if ss == [] then Rel(d.subs)
    else
      var front, k := ss[..|ss| - 1], |ss| - 1;
      if ss[k].Leave? then set p | p in Ideal(d, front) && p.1 != ss[k].session
      else Intended(Ideal(d, front), Asked(d, ss, k).0, Asked(d, ss, k).1)
  }

  /** No batch element resumes after another session's dispatch has begun. */
  ghost predicate ContextKept(d: Desk, ss: seq<Slice>)
    requires Schedule(d, ss)
  {
    forall k: nat | k < |ss| && ss[k].Resume? ::
      Schedule(d, ss[..k]) && Possible(RunAll(d, ss[..k]), ss[k]) && Asked(d, ss, k).0 == LastBegun(d, ss, k)
  }

  lemma {:induction false} LastBegunPrefix(d: Desk, ss: seq<Slice>, n: nat, k: nat)
    requires k <= n <= |ss|
    ensures LastBegun(d, ss[..n], k) == LastBegun(d, ss, k)
  {
    if k > 0 {
      LastBegunPrefix(d, ss, n, k - 1);
    }
  }

  lemma RunKeepsTight(d: Desk, s: Slice)
    requires Possible(d, s) && NoEmptySets(d.subs)
    ensures NoEmptySets(Run(d, s).subs)
  {
    match s
    case Begin(_, session, body) =>
      if Elements(body, d.maxBatchSize) != [] {
        HandleMeetsIntent(d.subs, session, Elements(body, d.maxBatchSize)[0]);
      }
    case Resume(task) => HandleMeetsIntent(d.subs, d.current, d.tasks[task].rest[0]);
    case Leave(session) => CleanupDrops(d.subs, session);
  }

  /** No schedule leaves a uri with an empty set. */
  lemma {:induction false} RunsStayTight(d: Desk, ss: seq<Slice>)
    requires Schedule(d, ss) && NoEmptySets(d.subs)
    ensures NoEmptySets(RunAll(d, ss).subs)
    decreases |ss|
  {
    if ss != [] {
      var front := ss[..|ss| - 1];
      RunsStayTight(d, front);
      RunKeepsTight(RunAll(d, front), ss[|ss| - 1]);
    }
  }

  /** Over whole runs: while the context is kept, the relation is exactly what the sessions asked for. */
  lemma {:induction false} RunsMeetIntent(d: Desk, ss: seq<Slice>)
    requires Schedule(d, ss) && ContextKept(d, ss)
    ensures Rel(RunAll(d, ss).subs) == Ideal(d, ss)
    decreases |ss|
  {
    if ss != [] {
      var k := |ss| - 1;
      var front := ss[..k];
      forall j: nat | j < k && front[j].Resume?
        ensures Schedule(d, front[..j]) && Possible(RunAll(d, front[..j]), front[j])
        ensures Asked(d, front, j).0 == LastBegun(d, front, j)
      {
        assert ss[j].Resume? && front[..j] == ss[..j];
        LastBegunPrefix(d, ss, k, j);
      }
      RunsMeetIntent(d, front);
      assert ss[..k + 1] == ss;
      if ss[k].Leave? {
        CleanupDrops(RunAll(d, front).subs, ss[k].session);
      } else {
        SliceActsFor(d, ss, k);
      }
    }
  }

  predicate SingleRequests(ss: seq<Slice>) {
    forall k | 0 <= k < |ss| && ss[k].Begin? :: !(ss[k].body.Some? && ss[k].body.value.Arr?)
  }

  /** Requests that are not batches leave nothing to resume, so every schedule of them keeps the context. */
  lemma {:induction false} SinglesNeverResume(d: Desk, ss: seq<Slice>)
    requires Schedule(d, ss) && SingleRequests(ss) && d.tasks == map[]
    ensures RunAll(d, ss).tasks == map[] && forall k | 0 <= k < |ss| :: !ss[k].Resume?
    decreases |ss|
  {
    if ss != [] {
      SinglesNeverResume(d, ss[..|ss| - 1]);
    }
  }

  lemma SinglesMeetIntent(d: Desk, ss: seq<Slice>)
    requires Schedule(d, ss) && SingleRequests(ss) && d.tasks == map[]
    ensures Rel(RunAll(d, ss).subs) == Ideal(d, ss)
  {
    SinglesNeverResume(d, ss);
    RunsMeetIntent(d, ss);
  }

  /** Then the table itself is determined: it is the only one without empty sets that says so. */
  lemma TableMeetsIntent(d: Desk, ss: seq<Slice>, table: Subs)
    requires Schedule(d, ss) && ContextKept(d, ss) && NoEmptySets(d.subs)
    requires NoEmptySets(table) && Rel(table) == Ideal(d, ss)
    ensures RunAll(d, ss).subs == table
  {
    RunsMeetIntent(d, ss);
    RunsStayTight(d, ss);
    RelationDeterminesTable(RunAll(d, ss).subs, table);
  }

  // ---- Batches run completely and in order ----

  /** How often a task resumes among slices i..k-1. */
  function Resumes(ss: seq<Slice>, task: nat, i: nat, k: nat): nat
    requires i <= k <= |ss|
  {
    if i == k then 0 else Resumes(ss, task, i, k - 1) + if ss[k - 1] == Resume(task) then 1 else 0
  }

  /** The first n elements of a batch within the limit are those before the first one that throws. */
  ghost predicate Runnable(elems: seq<Json>, maxBatchSize: nat, n: nat) {
    && 0 < |elems| <= maxBatchSize && n <= |elems|
    && (forall i | 0 <= i < n :: !Dispatcher.Throws(elems[i]))
    && (n < |elems| ==> Dispatcher.Throws(elems[n]))
  }

  /** Slice j begins a task under a number that no later slice before k takes again. */
  ghost predicate BeginsTask(ss: seq<Slice>, j: nat, k: nat, task: nat)
    requires j < k <= |ss|
  {
    && ss[j].Begin? && ss[j].task == task
    && forall i | j < i < k :: !(ss[i].Begin? && ss[i].task == task)
  }

  lemma BatchBegins(d: Desk, task: nat, session: string, elems: seq<Json>, n: nat)
    requires task !in d.tasks && Runnable(elems, d.maxBatchSize, n)
    ensures Elements(Some(Arr(elems)), d.maxBatchSize) == elems[..n]
    ensures Parked(Run(d, Begin(task, session, Some(Arr(elems)))), task, session, elems, n, 1)
  {
    Dispatcher.FirstThrowIs(elems, n);
    if n > 0 {
      assert elems[..n][1..] == elems[1..n];
    }
  }

  /** After `ran` slices of the task, exactly its elements from there on are parked, and nothing once all have run. */
  ghost predicate Parked(d: Desk, task: nat, session: string, elems: seq<Json>, n: nat, ran: nat)
    requires n <= |elems|
  {
    if ran < n then task in d.tasks && d.tasks[task] == Task(session, elems[ran..n])
    else task !in d.tasks && (n > 0 ==> ran == n)
  }

  lemma StaysParked(d: Desk, s: Slice, task: nat, session: string, elems: seq<Json>, n: nat, ran: nat)
    requires Possible(d, s) && n <= |elems| && Parked(d, task, session, elems, n, ran)
    requires !(s.Begin? && s.task == task)
    ensures Parked(Run(d, s), task, session, elems, n, ran + if s == Resume(task) then 1 else 0)
    ensures s == Resume(task) ==> ran < n && d.tasks[task].rest[0] == elems[ran]
  {
    if s == Resume(task) {
      assert elems[ran..n][1..] == elems[ran + 1..n];
    }
  }

  lemma {:induction false} StaysParkedAlong(
      d: Desk, ss: seq<Slice>, j: nat, k: nat, task: nat, session: string, elems: seq<Json>, n: nat)
    requires Schedule(d, ss) && j < k <= |ss| && BeginsTask(ss, j, k, task)
    requires ss[j] == Begin(task, session, Some(Arr(elems))) && Runnable(elems, d.maxBatchSize, n)
    ensures Schedule(d, ss[..k])
    ensures Parked(RunAll(d, ss[..k]), task, session, elems, n, 1 + Resumes(ss, task, j + 1, k))
    decreases k
  {
    ScheduleTrail(d, ss, k - 1);
    if k == j + 1 {
      CurrentIsLastBegun(d, ss, j);
      BatchBegins(RunAll(d, ss[..j]), task, session, elems, n);
    } else {
      StaysParkedAlong(d, ss, j, k - 1, task, session, elems, n);
      StaysParked(RunAll(d, ss[..k - 1]), ss[k - 1], task, session, elems, n, 1 + Resumes(ss, task, j + 1, k - 1));
    }
  }

  /**
   A batch runs all its elements up to the first that throws, each once and in order, whatever is
   scheduled in between: its first slice runs element 0 and each later slice the element after those
   that have run, always for the session that posted the batch; the rest stays parked, and the task has
   left the desk exactly when nothing is left to run. Until then it can resume.
   */
  lemma BatchRunsCompletely(
      d: Desk, ss: seq<Slice>, j: nat, k: nat, task: nat, session: string, elems: seq<Json>, n: nat)
    requires Schedule(d, ss) && j < k <= |ss| && BeginsTask(ss, j, k, task)
    requires ss[j] == Begin(task, session, Some(Arr(elems))) && Runnable(elems, d.maxBatchSize, n)
    ensures Schedule(d, ss[..k]) && Parked(RunAll(d, ss[..k]), task, session, elems, n, 1 + Resumes(ss, task, j + 1, k))
    ensures 1 + Resumes(ss, task, j + 1, k) < n ==> Possible(RunAll(d, ss[..k]), Resume(task))
    ensures k < |ss| && ss[k] == Resume(task) ==>
      var ran := 1 + Resumes(ss, task, j + 1, k);
      && Possible(RunAll(d, ss[..k]), ss[k]) && ran < n && Asked(d, ss, k) == (session, Some(elems[ran]))
  {
    StaysParkedAlong(d, ss, j, k, task, session, elems, n);
    if k < |ss| && ss[k] == Resume(task) {
      ScheduleTrail(d, ss, k);
      StaysParked(RunAll(d, ss[..k]), ss[k], task, session, elems, n, 1 + Resumes(ss, task, j + 1, k));
    }
  }

  /** The first slice of a batch runs its first element. */
  lemma BatchStarts(d: Desk, ss: seq<Slice>, j: nat, task: nat, session: string, elems: seq<Json>, n: nat)
    requires Schedule(d, ss) && j < |ss| && Runnable(elems, d.maxBatchSize, n)
    requires ss[j] == Begin(task, session, Some(Arr(elems)))
    ensures Schedule(d, ss[..j]) && Possible(RunAll(d, ss[..j]), ss[j])
    ensures Asked(d, ss, j) == (session, if n > 0 then Some(elems[0]) else None)
  {
    ScheduleTrail(d, ss, j);
    CurrentIsLastBegun(d, ss, j);
    BatchBegins(RunAll(d, ss[..j]), task, session, elems, n);
  }

  /** An empty batch, one over the limit and a body that is no JSON set the context and run nothing. */
  lemma BadBodyRunsNothing(d: Desk, task: nat, session: string, body: Option<Json>)
    requires task !in d.tasks
    requires body.Some? ==> body.value.Arr? && (body.value.items == [] || |body.value.items| > d.maxBatchSize)
    ensures Run(d, Begin(task, session, body)) == d.(current := session)
  {
  }

  // ---- A batch that loses its context ----

  lemma Extends(d: Desk, front: seq<Slice>, s: Slice, e: Desk, asked: (string, Option<Json>))
    requires Schedule(d, front) && Possible(RunAll(d, front), s) && e == Run(RunAll(d, front), s) && !s.Leave?
    requires s.Begin? ==> asked == (s.session, if Elements(s.body, d.maxBatchSize) == [] then None else Some(Elements(s.body, d.maxBatchSize)[0]))
    requires s.Resume? ==> asked == (RunAll(d, front).tasks[s.task].session, Some(RunAll(d, front).tasks[s.task].rest[0]))
    ensures Schedule(d, front + [s]) && RunAll(d, front + [s]) == e
    ensures Ideal(d, front + [s]) == Intended(Ideal(d, front), asked.0, asked.1)
  {
    assert (front + [s])[..|front|] == front;
  }

  /** A batch of two that runs its first element, is overtaken by b, and goes on. */
  lemma Overtaken(d: Desk, a: string, b: string, call: Json)
    returns (d1: Desk, d2: Desk)
    requires d == Idle(20) && !Dispatcher.Throws(call)
    ensures d1 == Desk(20, a, map[], map[0 := Task(a, [call])]) == Run(d, Begin(0, a, Some(Arr([EMPTY_OBJECT, call]))))
    ensures d2 == d1.(current := b) && Possible(d1, Begin(1, b, Some(EMPTY_OBJECT)))
    ensures d2 == Run(d1, Begin(1, b, Some(EMPTY_OBJECT)))
    ensures Elements(Some(Arr([EMPTY_OBJECT, call])), 20) == [EMPTY_OBJECT, call]
  {
    var elems := [EMPTY_OBJECT, call];
    BatchBegins(d, 0, a, elems, 2);
    assert elems[..2] == elems && elems[1..2] == [call];
    d1 := Run(d, Begin(0, a, Some(Arr(elems))));
    RequestDoesWhatItAsks(d1, 1, b, Some(EMPTY_OBJECT));
    d2 := Run(d1, Begin(1, b, Some(EMPTY_OBJECT)));
  }

  /** A batch loses its context as soon as it is interleaved with one other request. */
  lemma BatchCanSubscribeAnother(a: string, b: string, call: Json)
    requires a != "" && b != "" && a != b && Calls(call, "resources/subscribe")
    ensures var d, uri := Idle(20), UriIn(call, "resources/subscribe");
      var ss := [Begin(0, a, Some(Arr([EMPTY_OBJECT, call]))), Begin(1, b, Some(EMPTY_OBJECT)), Resume(0)];
      Schedule(d, ss) && Rel(RunAll(d, ss).subs) == {(uri, b)} && Ideal(d, ss) == {(uri, a)}
  {
    var d := Idle(20);
    var s0, s1, s2 := Begin(0, a, Some(Arr([EMPTY_OBJECT, call]))), Begin(1, b, Some(EMPTY_OBJECT)), Resume(0);
    var d1, d2 := Overtaken(d, a, b, call);
    assert Rel(map[]) == {};
    Extends(d, [], s0, d1, (a, Some(EMPTY_OBJECT)));
    assert [] + [s0] == [s0];
    Extends(d, [s0], s1, d2, (b, Some(EMPTY_OBJECT)));
    assert [s0] + [s1] == [s0, s1];
    HandleMeetsIntent(map[], b, call);
    Extends(d, [s0, s1], s2, Run(d2, s2), (a, Some(call)));
    assert [s0, s1] + [s2] == [s0, s1, s2];
  }
}
