/**
 All shards together. A response is routed to the shard its session id names: pushed at once when that
 is the shard itself, otherwise sent over and executed there at some later point, in any order.
 */
module Cluster {
  import opened Prelude
  import opened Digits
  import opened SessionIds
  import opened Sessions
  import EventStream

  /** A message for a session, and the transport that routed it. */
  datatype Parcel = Parcel(via: Kind, id: string, msg: string)

  type Logs = map<string, seq<string>>

  /**
   The shards, what is in flight between them, and a record of what became of every message: `logs` is
   all that was ever put in a session's queue, `written` all that its stream loop wrote.
   */
  datatype Cluster = Cluster(
    nodes: seq<Table>,
    letters: multiset<Parcel>,
    closings: multiset<string>,
    routed: multiset<Parcel>,
    appended: multiset<Parcel>,
    dropped: multiset<Parcel>,
    logs: Logs,
    written: Logs)

  datatype Step =
    | Open(shard: nat, kind: Kind, ip: string)
    | Respond(shard: nat, parcel: Parcel, target: nat)
    | Notify(shard: nat, parcel: Parcel)
    | Arrive(parcel: Parcel, target: nat)
    | Close(shard: nat, id: string, target: nat)
    | ArriveClosing(id: string, target: nat)
    | Write(shard: nat, id: string)
    | Exit(shard: nat, id: string)
    | Halt(shard: nat)

  function History(m: Logs, id: string): seq<string> {
    if id in m then m[id] else []
  }

  function Extend(m: Logs, id: string, msg: string): Logs {
    m[id := History(m, id) + [msg]]
  }

  function Init(n: nat): Cluster {
    Cluster(seq(n, k requires 0 <= k < n => EmptyTable(k)),
            multiset{}, multiset{}, multiset{}, multiset{}, multiset{}, map[], map[])
  }

  // ---- Steps ----

  /** The targets are what the transport parses from the id. */
  predicate Addressed(s: Step) {
    match s
    case Respond(_, p, target) => target == Parse(p.via, p.id)
    case Arrive(p, target) => target == Parse(p.via, p.id)
    case Close(_, id, target) => target == ParseStreamable(id)
    case ArriveClosing(id, target) => target == ParseStreamable(id)
    case _ => true
  }

  predicate Enabled(c: Cluster, s: Step) {
    match s
    case Open(k, _, _) => k < |c.nodes|
    case Respond(k, p, _) => k < |c.nodes| && EventStream.Carriable(p.msg)
    case Notify(k, p) => k < |c.nodes| && EventStream.Carriable(p.msg)
    case Arrive(p, target) => p in c.letters && target < |c.nodes|
    case Close(k, _, _) => k < |c.nodes|
    case ArriveClosing(id, target) => id in c.closings && target < |c.nodes|
    case Write(k, id) =>
      && k < |c.nodes| && id in c.nodes[k].sessions
      && c.nodes[k].sessions[id].active && c.nodes[k].sessions[id].messages != []
    case Exit(k, _) => k < |c.nodes|
    case Halt(k) => k < |c.nodes|
  }

  function Update(c: Cluster, k: nat, t: Table): (d: Cluster)
    requires k < |c.nodes|
    ensures |d.nodes| == |c.nodes|
  {
    c.(nodes := c.nodes[k := t])
  }

  /** push_to_session runs on shard k. */
  function Deposit(c: Cluster, k: nat, p: Parcel): (d: Cluster)
    requires k < |c.nodes|
    ensures |d.nodes| == |c.nodes|
  {
    var t := c.nodes[k];
    if p.id in t.sessions && t.sessions[p.id].active then
      Update(c, k, Push(t, p.id, p.msg)).(appended := c.appended + multiset{p}, logs := Extend(c.logs, p.id, p.msg))
    else c.(dropped := c.dropped + multiset{p})
  }

  function Note(c: Cluster, p: Parcel): Cluster {
    c.(routed := c.routed + multiset{p})
  }

  /** A response leaves shard k for a target shard. */
  function Route(c: Cluster, k: nat, p: Parcel, target: nat): (d: Cluster)
    requires k < |c.nodes|
    ensures |d.nodes| == |c.nodes|
  {
    if target == k then Deposit(Note(c, p), k, p) else Note(c, p).(letters := c.letters + multiset{p})
  }

  function Create(limit: ConnectionLimit, t: Table, kind: Kind, ip: string): Table {
    if kind.Sse? then Sessions.Create(limit, t, ip).0 else OpenStream(t, ip).0
  }

  function WriteHead(c: Cluster, k: nat, id: string): (d: Cluster)
    requires k < |c.nodes| && id in c.nodes[k].sessions && c.nodes[k].sessions[id].messages != []
    ensures |d.nodes| == |c.nodes|
  {
    Update(c, k, Pop(c.nodes[k], id)).(written := Extend(c.written, id, c.nodes[k].sessions[id].messages[0]))
  }

  function Do(limit: ConnectionLimit, c: Cluster, s: Step): (d: Cluster)
    requires Enabled(c, s)
    ensures |d.nodes| == |c.nodes|
  {
    match s
    case Open(k, kind, ip) => Update(c, k, Create(limit, c.nodes[k], kind, ip))
    case Respond(k, p, target) => Route(c, k, p, target)
    case Notify(k, p) => Deposit(Note(c, p), k, p)
    case Arrive(p, target) => Deposit(c.(letters := c.letters - multiset{p}), target, p)
    case Close(k, id, target) =>
      if target == k then Update(c, k, Remove(c.nodes[k], id)) else c.(closings := c.closings + multiset{id})
    case ArriveClosing(id, target) =>
      Update(c.(closings := c.closings - multiset{id}), target, Remove(c.nodes[target], id))
    case Write(k, id) => WriteHead(c, k, id)
    case Exit(k, id) => Update(c, k, Remove(c.nodes[k], id))
    case Halt(k) => Update(c, k, Stop(c.nodes[k]))
  }

  ghost predicate Next(limit: ConnectionLimit, b: Cluster, s: Step, c: Cluster) {
    Enabled(b, s) && Addressed(s) && c == Do(limit, b, s)
  }

  /** The states of a run of n shards under the steps ss. */
  ghost predicate IsRun(limit: ConnectionLimit, n: nat, trace: seq<Cluster>, ss: seq<Step>) {
    && |trace| == |ss| + 1 && trace[0] == Init(n)
    && forall i: nat | i < |ss| :: Next(limit, trace[i], ss[i], trace[i + 1])
  }

  // ---- The invariant ----

  ghost predicate NodesGood(nodes: seq<Table>) {
    forall k: nat | k < |nodes| :: Good(nodes[k]) && nodes[k].shard == k
  }

  /** Every message routed is in flight, in a queue's history, or dropped; none is lost or doubled. */
  ghost predicate Conserved(c: Cluster) {
    c.routed == c.letters + c.appended + c.dropped
  }

  /** How often a message was appended for a session, whichever transport routed it. */
  function Times(appended: multiset<Parcel>, id: string, msg: string): nat {
    appended[Parcel(Sse, id, msg)] + appended[Parcel(Streamable, id, msg)]
  }

  /** A session's log holds exactly the messages appended for it. */
  ghost predicate LogsExact(appended: multiset<Parcel>, logs: Logs) {
    forall id, msg :: multiset(History(logs, id))[msg] == Times(appended, id, msg)
  }

  /** First in, first out: what is written, then what is queued, is what was appended. */
  ghost predicate Fifo(nodes: seq<Table>, logs: Logs, written: Logs) {
    && (forall id :: History(written, id) <= History(logs, id))
    && (forall k: nat, id | k < |nodes| && id in nodes[k].sessions ::
          History(logs, id) == History(written, id) + nodes[k].sessions[id].messages)
  }

  /** The id was minted on one of the shards. */
  ghost predicate Minted(nodes: seq<Table>, id: string) {
    exists k: nat :: k < |nodes| && MintedHere(nodes[k], id)
  }

  /** Only ids that were minted have a history, and only messages that can be framed. */
  ghost predicate HistoriesMinted(nodes: seq<Table>, logs: Logs, written: Logs) {
    && (forall id | id in logs :: Minted(nodes, id))
    && (forall id | id in written :: Minted(nodes, id))
  }

  ghost predicate LogsCarriable(logs: Logs) {
    forall id, msg | id in logs && msg in logs[id] :: EventStream.Carriable(msg)
  }

  ghost predicate LettersCarriable(letters: multiset<Parcel>) {
    forall p | p in letters :: EventStream.Carriable(p.msg)
  }

  ghost predicate Coherent(c: Cluster) {
    && NodesGood(c.nodes)
    && Conserved(c)
    && LogsExact(c.appended, c.logs)
    && Fifo(c.nodes, c.logs, c.written)
    && HistoriesMinted(c.nodes, c.logs, c.written)
    && LogsCarriable(c.logs) && LettersCarriable(c.letters)
  }

  /** A session is on one shard only. */
  ghost predicate OneShardEach(nodes: seq<Table>) {
    forall j: nat, k: nat, id | j < |nodes| && k < |nodes| && id in nodes[j].sessions && id in nodes[k].sessions :: j == k
  }

  lemma SessionsAreUnique(nodes: seq<Table>)
    requires NodesGood(nodes)
    ensures OneShardEach(nodes)
  {
  }

  // ---- The steps keep the invariant ----

  lemma NodesStayGood(nodes: seq<Table>, k: nat, t: Table)
    requires NodesGood(nodes) && k < |nodes| && Good(t) && t.shard == k
    ensures NodesGood(nodes[k := t])
  {
  }

  ghost predicate CountersUp(t: Table, u: Table) {
    t.shard == u.shard && t.sessionCounter <= u.sessionCounter && t.streamCounter <= u.streamCounter
  }

  lemma MintedStays(nodes: seq<Table>, k: nat, t: Table, id: string)
    requires k < |nodes| && CountersUp(nodes[k], t) && Minted(nodes, id)
    ensures Minted(nodes[k := t], id)
  {
    var j: nat :| j < |nodes| && MintedHere(nodes[j], id);
    MintedGrows(nodes[k], t);
    assert MintedHere(nodes[k := t][j], id);
  }

  lemma HistoriesStayMinted(nodes: seq<Table>, k: nat, t: Table, logs: Logs, written: Logs)
    requires k < |nodes| && CountersUp(nodes[k], t) && HistoriesMinted(nodes, logs, written)
    ensures HistoriesMinted(nodes[k := t], logs, written)
  {
    forall id | id in logs || id in written ensures Minted(nodes[k := t], id) {
      MintedStays(nodes, k, t, id);
    }
  }

  lemma TimesAdded(appended: multiset<Parcel>, p: Parcel, id: string, msg: string)
    ensures Times(appended + multiset{p}, id, msg)
         == Times(appended, id, msg) + if id == p.id && msg == p.msg then 1 else 0
  {
    match p.via
    case Sse => assert p == Parcel(Sse, p.id, p.msg);
    case Streamable => assert p == Parcel(Streamable, p.id, p.msg);
  }

  lemma AppendLog(appended: multiset<Parcel>, logs: Logs, p: Parcel)
    requires LogsExact(appended, logs)
    ensures LogsExact(appended + multiset{p}, Extend(logs, p.id, p.msg))
  {
    var after := Extend(logs, p.id, p.msg);
    forall id, msg ensures multiset(History(after, id))[msg] == Times(appended + multiset{p}, id, msg) {
      assert multiset(History(logs, id))[msg] == Times(appended, id, msg);
      TimesAdded(appended, p, id, msg);
      if id == p.id {
        assert multiset(History(logs, id) + [p.msg]) == multiset(History(logs, id)) + multiset{p.msg};
      }
    }
  }

  /** Queues of other sessions are not touched by a push or a write. */
  ghost predicate OnlyQueueChanged(nodes: seq<Table>, k: nat, t: Table, id: string)
    requires k < |nodes|
  {
    t.sessions.Keys == nodes[k].sessions.Keys
    && forall other | other in t.sessions && other != id :: t.sessions[other] == nodes[k].sessions[other]
  }

  ghost predicate SameBut(m: Logs, m': Logs, id: string) {
    forall other | other != id :: History(m', other) == History(m, other)
  }

  lemma OneQueueChanges(
      nodes: seq<Table>, k: nat, t: Table, id: string, logs: Logs, written: Logs, logs': Logs, written': Logs)
    requires OneShardEach(nodes) && Fifo(nodes, logs, written) && k < |nodes| && id in nodes[k].sessions
    requires OnlyQueueChanged(nodes, k, t, id)
    requires SameBut(logs, logs', id) && SameBut(written, written', id)
    requires History(logs', id) == History(written', id) + t.sessions[id].messages
    ensures Fifo(nodes[k := t], logs', written')
  {
  }

  lemma PushFifo(nodes: seq<Table>, k: nat, id: string, msg: string, logs: Logs, written: Logs)
    requires OneShardEach(nodes) && Fifo(nodes, logs, written) && k < |nodes| && id in nodes[k].sessions
    requires nodes[k].sessions[id].active
    ensures Fifo(nodes[k := Push(nodes[k], id, msg)], Extend(logs, id, msg), written)
  {
    var t, logs' := Push(nodes[k], id, msg), Extend(logs, id, msg);
    assert History(logs, id) + [msg] == History(written, id) + (nodes[k].sessions[id].messages + [msg]);
    OneQueueChanges(nodes, k, t, id, logs, written, logs', written);
  }

  lemma WriteFifo(nodes: seq<Table>, k: nat, id: string, logs: Logs, written: Logs)
    requires OneShardEach(nodes) && Fifo(nodes, logs, written) && k < |nodes| && id in nodes[k].sessions
    requires nodes[k].sessions[id].messages != []
    ensures Fifo(nodes[k := Pop(nodes[k], id)], logs, Extend(written, id, nodes[k].sessions[id].messages[0]))
  {
    var queue := nodes[k].sessions[id].messages;
    var t, written' := Pop(nodes[k], id), Extend(written, id, queue[0]);
    assert History(written, id) + queue == History(written, id) + [queue[0]] + queue[1..];
    OneQueueChanges(nodes, k, t, id, logs, written, logs, written');
  }

  /** A table that only lost sessions, or gained one whose id has no history yet. */
  lemma TableFifo(nodes: seq<Table>, k: nat, t: Table, logs: Logs, written: Logs)
    requires Fifo(nodes, logs, written) && k < |nodes|
    requires forall id | id in t.sessions ::
      if id in nodes[k].sessions then t.sessions[id] == nodes[k].sessions[id]
      else t.sessions[id].messages == [] && id !in logs && id !in written
    ensures Fifo(nodes[k := t], logs, written)
  {
  }

  lemma TableCoherent(c: Cluster, k: nat, t: Table)
    requires Coherent(c) && k < |c.nodes| && Good(t) && CountersUp(c.nodes[k], t)
    requires forall id | id in t.sessions ::
      if id in c.nodes[k].sessions then t.sessions[id] == c.nodes[k].sessions[id]
      else t.sessions[id].messages == [] && id !in c.logs && id !in c.written
    ensures Coherent(Update(c, k, t))
  {
    NodesStayGood(c.nodes, k, t);
    TableFifo(c.nodes, k, t, c.logs, c.written);
    HistoriesStayMinted(c.nodes, k, t, c.logs, c.written);
  }

  lemma RemoveCoherent(c: Cluster, k: nat, id: string)
    requires Coherent(c) && k < |c.nodes|
    ensures Coherent(Update(c, k, Remove(c.nodes[k], id)))
  {
    StepIsGood(ConnectionLimit(false, 0, 0), c.nodes[k], Delete(id));
    TableCoherent(c, k, Remove(c.nodes[k], id));
  }

  lemma FreshIdHasNoHistory(nodes: seq<Table>, k: nat, t: Table, id: string)
    requires NodesGood(nodes) && k < |nodes| && t.shard == k && MintedHere(t, id) && !MintedHere(nodes[k], id)
    ensures !Minted(nodes, id)
  {
  }

  /** Opening a session under an id no counter has reached yet. */
  lemma FreshIdCoherent(c: Cluster, k: nat, t: Table, id: string)
    requires Coherent(c) && k < |c.nodes| && Good(t) && CountersUp(c.nodes[k], t)
    requires MintedHere(t, id) && !MintedHere(c.nodes[k], id)
    requires t.sessions == c.nodes[k].sessions[id := NEW_SESSION]
    ensures Coherent(Update(c, k, t))
  {
    FreshIdHasNoHistory(c.nodes, k, t, id);
    TableCoherent(c, k, t);
  }

  lemma OpenSseCoherent(c: Cluster, k: nat, ip: string)
    requires Coherent(c) && k < |c.nodes|
    ensures Coherent(Update(c, k, OpenSse(c.nodes[k], ip).0))
  {
    var t := c.nodes[k];
    NextIdsAreFresh(t);
    OpenSseIsGood(t, ip);
    FreshIdCoherent(c, k, OpenSse(t, ip).0, OpenSse(t, ip).1);
  }

  lemma OpenStreamCoherent(c: Cluster, k: nat, ip: string)
    requires Coherent(c) && k < |c.nodes|
    ensures Coherent(Update(c, k, OpenStream(c.nodes[k], ip).0))
  {
    var t := c.nodes[k];
    NextIdsAreFresh(t);
    OpenStreamIsGood(t, ip);
    FreshIdCoherent(c, k, OpenStream(t, ip).0, OpenStream(t, ip).1);
  }

  lemma CreateCoherent(limit: ConnectionLimit, c: Cluster, k: nat, kind: Kind, ip: string)
    requires Coherent(c) && k < |c.nodes|
    ensures Coherent(Update(c, k, Create(limit, c.nodes[k], kind, ip)))
  {
    if kind.Streamable? {
      OpenStreamCoherent(c, k, ip);
    } else if !Full(limit, c.nodes[k], ip) {
      OpenSseCoherent(c, k, ip);
    } else {
      TableCoherent(c, k, c.nodes[k]);
    }
  }

  lemma DepositTables(c: Cluster, k: nat, p: Parcel)
    requires k < |c.nodes| && p.id in c.nodes[k].sessions
    requires NodesGood(c.nodes) && Fifo(c.nodes, c.logs, c.written)
    ensures NodesGood(Deposit(c, k, p).nodes)
    ensures Fifo(Deposit(c, k, p).nodes, Deposit(c, k, p).logs, c.written)
  {
    var t := c.nodes[k];
    StepIsGood(ConnectionLimit(false, 0, 0), t, Deliver(p.id, p.msg));
    NodesStayGood(c.nodes, k, Push(t, p.id, p.msg));
    SessionsAreUnique(c.nodes);
    PushFifo(c.nodes, k, p.id, p.msg, c.logs, c.written);
  }

  lemma DepositMinted(c: Cluster, k: nat, p: Parcel)
    requires k < |c.nodes| && p.id in c.nodes[k].sessions
    requires NodesGood(c.nodes) && HistoriesMinted(c.nodes, c.logs, c.written)
    ensures HistoriesMinted(Deposit(c, k, p).nodes, Deposit(c, k, p).logs, c.written)
  {
    assert MintedHere(c.nodes[k], p.id);
    assert Minted(c.nodes, p.id);
    HistoriesStayMinted(c.nodes, k, Push(c.nodes[k], p.id, p.msg), Extend(c.logs, p.id, p.msg), c.written);
  }

  lemma DepositRecords(c: Cluster, k: nat, p: Parcel)
    requires k < |c.nodes| && EventStream.Carriable(p.msg)
    requires LogsExact(c.appended, c.logs) && LogsCarriable(c.logs)
    requires c.routed == c.letters + c.appended + c.dropped + multiset{p}
    ensures var d := Deposit(c, k, p);
      Conserved(d) && LogsExact(d.appended, d.logs) && LogsCarriable(d.logs) && d.letters == c.letters
  {
    AppendLog(c.appended, c.logs, p);
    ExtendCarriable(c.logs, p.id, p.msg);
  }

  /** A parcel that is routed but not accounted for yet becomes so by being deposited. */
  lemma DepositCoherent(c: Cluster, k: nat, p: Parcel)
    requires k < |c.nodes| && EventStream.Carriable(p.msg)
    requires NodesGood(c.nodes) && LogsExact(c.appended, c.logs) && Fifo(c.nodes, c.logs, c.written)
    requires HistoriesMinted(c.nodes, c.logs, c.written) && LogsCarriable(c.logs) && LettersCarriable(c.letters)
    requires c.routed == c.letters + c.appended + c.dropped + multiset{p}
    ensures Coherent(Deposit(c, k, p))
  {
    DepositRecords(c, k, p);
    if p.id in c.nodes[k].sessions {
      DepositTables(c, k, p);
      DepositMinted(c, k, p);
    }
  }

  lemma ExtendCarriable(logs: Logs, id: string, msg: string)
    requires LogsCarriable(logs) && EventStream.Carriable(msg)
    ensures LogsCarriable(Extend(logs, id, msg))
  {
  }

  lemma {:induction false} RouteCoherent(c: Cluster, k: nat, p: Parcel, target: nat)
    requires Coherent(c) && k < |c.nodes| && EventStream.Carriable(p.msg)
    ensures Coherent(Route(c, k, p, target))
  {
    if target == k {
      DepositCoherent(Note(c, p), k, p);
    }
  }

  lemma ArriveCoherent(c: Cluster, k: nat, p: Parcel)
    requires Coherent(c) && p in c.letters && k < |c.nodes|
    ensures Coherent(Deposit(c.(letters := c.letters - multiset{p}), k, p))
  {
    var rest := c.(letters := c.letters - multiset{p});
    assert c.letters == rest.letters + multiset{p};
    DepositCoherent(rest, k, p);
  }

  lemma WriteCoherent(c: Cluster, k: nat, id: string)
    requires Coherent(c) && k < |c.nodes| && id in c.nodes[k].sessions && c.nodes[k].sessions[id].messages != []
    ensures Coherent(WriteHead(c, k, id))
  {
    var t := c.nodes[k];
    StepIsGood(ConnectionLimit(false, 0, 0), t, Take(id));
    SessionsAreUnique(c.nodes);
    NodesStayGood(c.nodes, k, Pop(t, id));
    WriteFifo(c.nodes, k, id, c.logs, c.written);
    assert Minted(c.nodes, id);
    HistoriesStayMinted(c.nodes, k, Pop(t, id), c.logs, Extend(c.written, id, t.sessions[id].messages[0]));
  }

  lemma StepCoherent(limit: ConnectionLimit, c: Cluster, s: Step)
    requires Coherent(c) && Enabled(c, s)
    ensures Coherent(Do(limit, c, s))
  {
    match s
    case Open(k, kind, ip) => CreateCoherent(limit, c, k, kind, ip);
    case Respond(_, _, _) => MessageCoherent(limit, c, s);
    case Notify(_, _) => MessageCoherent(limit, c, s);
    case Arrive(_, _) => MessageCoherent(limit, c, s);
    case Close(_, _, _) => ClosingCoherent(limit, c, s);
    case ArriveClosing(_, _) => ClosingCoherent(limit, c, s);
    case Write(k, id) => WriteCoherent(c, k, id);
    case Exit(_, _) => ClosingCoherent(limit, c, s);
    case Halt(k) => HaltCoherent(limit, c, k);
  }

  lemma MessageCoherent(limit: ConnectionLimit, c: Cluster, s: Step)
    requires Coherent(c) && Enabled(c, s) && (s.Respond? || s.Notify? || s.Arrive?)
    ensures Coherent(Do(limit, c, s))
  {
    match s
    case Respond(k, p, target) => RouteCoherent(c, k, p, target);
    case Notify(k, p) => RouteCoherent(c, k, p, k);
    case Arrive(p, target) => ArriveCoherent(c, target, p);
  }

  lemma ClosingCoherent(limit: ConnectionLimit, c: Cluster, s: Step)
    requires Coherent(c) && Enabled(c, s) && (s.Close? || s.ArriveClosing? || s.Exit?)
    ensures Coherent(Do(limit, c, s))
  {
    match s
    case Close(k, id, _) => RemoveCoherent(c, k, id);
    case ArriveClosing(id, target) => RemoveCoherent(c.(closings := c.closings - multiset{id}), target, id);
    case Exit(k, id) => RemoveCoherent(c, k, id);
  }

  lemma HaltCoherent(limit: ConnectionLimit, c: Cluster, k: nat)
    requires Coherent(c) && k < |c.nodes|
    ensures Coherent(Update(c, k, Stop(c.nodes[k])))
  {
    StepIsGood(limit, c.nodes[k], Shutdown);
    TableCoherent(c, k, Stop(c.nodes[k]));
  }

  lemma InitCoherent(n: nat)
    ensures Coherent(Init(n))
  {
    forall k: nat | k < n ensures Good(EmptyTable(k)) {
      TableAlwaysGood(ConnectionLimit(false, 0, 0), k, []);
    }
  }

  /** The invariant holds in every reachable state, for every number of shards and every interleaving. */
  lemma {:induction false} AlwaysCoherent(
      limit: ConnectionLimit, n: nat, trace: seq<Cluster>, ss: seq<Step>, k: nat)
    requires IsRun(limit, n, trace, ss) && k <= |ss|
    ensures Coherent(trace[k]) && |trace[k].nodes| == n
  {
    if k == 0 {
      InitCoherent(n);
    } else {
      AlwaysCoherent(limit, n, trace, ss, k - 1);
      var b, s, c := trace[k - 1], ss[k - 1], trace[k];
      assert Next(limit, b, s, c);
      StepCoherent(limit, b, s);
    }
  }
}
