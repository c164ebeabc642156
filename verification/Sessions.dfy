/**
 One shard's session tables on values: the sessions themselves, the session-to-IP table and the
 per-IP connection counts. Each function is one uninterrupted stretch of the source.
 */
module Sessions {
  import opened Prelude
  import opened SessionIds

  datatype ConnectionLimit = ConnectionLimit(enabled: bool, maxPerIp: nat, maxTotal: nat)

  datatype Session = Session(messages: seq<string>, active: bool)

  datatype Table = Table(
    shard: nat,
    sessions: map<string, Session>,
    sessionToIp: map<string, string>,
    ipConnCount: map<string, nat>,
    sessionCounter: nat,
    streamCounter: nat)

  const NEW_SESSION := Session([], true)

  function EmptyTable(shard: nat): Table {
    Table(shard, map[], map[], map[], 0, 0)
  }

  function Count(t: Table, ip: string): nat {
    if ip in t.ipConnCount then t.ipConnCount[ip] else 0
  }

  // ---- The operations ----

  /** _track_ip_conn */
  function Track(t: Table, id: string, ip: string): Table {
    if ip == "" then t
    else t.(sessionToIp := t.sessionToIp[id := ip], ipConnCount := t.ipConnCount[ip := Count(t, ip) + 1])
  }

  /** create_session_with_id */
  function CreateWithId(t: Table, id: string, ip: string): Table {
    Track(t.(sessions := t.sessions[id := NEW_SESSION]), id, ip)
  }

  /** Refused by the connection limits. */
  predicate Full(limit: ConnectionLimit, t: Table, ip: string) {
    limit.enabled && (|t.sessions| >= limit.maxTotal || (ip != "" && Count(t, ip) >= limit.maxPerIp))
  }

  /** A session minted by create_session once the limits have let it through. */
  function OpenSse(t: Table, ip: string): (Table, string) {
    var n := t.sessionCounter + 1;
    var id := Mint(Sse, t.shard, n);
    (CreateWithId(t.(sessionCounter := n), id, ip), id)
  }

  /** create_session; the empty id is a refusal. */
  function Create(limit: ConnectionLimit, t: Table, ip: string): (Table, string) {
    if Full(limit, t, ip) then (t, "") else OpenSse(t, ip)
  }

  /** The Streamable HTTP transport's way to open a session: its own counter, no limits. */
  function OpenStream(t: Table, ip: string): (Table, string) {
    var n := t.streamCounter + 1;
    var id := Mint(Streamable, t.shard, n);
    (CreateWithId(t.(streamCounter := n), id, ip), id)
  }

  /** The count table after one connection of an IP is released. */
  function Release(t: Table, ip: string): map<string, nat> {
    if ip !in t.ipConnCount then t.ipConnCount
    else
      var n := if t.ipConnCount[ip] > 0 then t.ipConnCount[ip] - 1 else t.ipConnCount[ip];
      if n == 0 then t.ipConnCount - {ip} else t.ipConnCount[ip := n]
  }

  /** remove_session */
  function Remove(t: Table, id: string): Table {
    if id in t.sessionToIp
    then t.(ipConnCount := Release(t, t.sessionToIp[id]), sessionToIp := t.sessionToIp - {id}, sessions := t.sessions - {id})
    else t.(sessions := t.sessions - {id})
  }

  /** push_to_session, queue below capacity */
  function Push(t: Table, id: string, msg: string): Table {
    if id in t.sessions && t.sessions[id].active
    then t.(sessions := t.sessions[id := t.sessions[id].(messages := t.sessions[id].messages + [msg])])
    else t
  }

  /** The stream loop takes the head of the queue. */
  function Pop(t: Table, id: string): Table {
    if id in t.sessions && t.sessions[id].messages != []
    then t.(sessions := t.sessions[id := t.sessions[id].(messages := t.sessions[id].messages[1..])])
    else t
  }

  /** stop(): the sessions go, the ledger stays. */
  function Stop(t: Table): Table {
    t.(sessions := map[])
  }

  // ---- Runs ----

  /** Delete is both the DELETE request and the exit of a stream loop: a session may be removed twice. */
  datatype Event =
    | CreateSse(ip: string)
    | CreateStream(ip: string)
    | Delete(id: string)
    | Deliver(id: string, msg: string)
    | Take(id: string)
    | Shutdown

  function Step(limit: ConnectionLimit, t: Table, e: Event): Table {
    match e
    case CreateSse(ip) => Create(limit, t, ip).0
    case CreateStream(ip) => OpenStream(t, ip).0
    case Delete(id) => Remove(t, id)
    case Deliver(id, msg) => Push(t, id, msg)
    case Take(id) => Pop(t, id)
    case Shutdown => Stop(t)
  }

  function TableAfter(limit: ConnectionLimit, shard: nat, es: seq<Event>): Table {
    if es == [] then EmptyTable(shard)
    else Step(limit, TableAfter(limit, shard, es[..|es| - 1]), es[|es| - 1])
  }

  // ---- Fresh ids ----

  /** The id was minted on this shard, by a counter value already used. */
  ghost predicate MintedHere(t: Table, id: string) {
    var o := Origin(id);
    o.Some? && o.value.shard == t.shard
      && 1 <= o.value.counter <= (if o.value.kind.Sse? then t.sessionCounter else t.streamCounter)
  }

  ghost predicate IdsMinted(t: Table) {
    && (forall id | id in t.sessions :: MintedHere(t, id))
    && (forall id | id in t.sessionToIp :: MintedHere(t, id))
  }

  lemma NextIdsAreFresh(t: Table)
    requires IdsMinted(t)
    ensures !MintedHere(t, Mint(Sse, t.shard, t.sessionCounter + 1))
    ensures !MintedHere(t, Mint(Streamable, t.shard, t.streamCounter + 1))
    ensures MintedHere(t.(sessionCounter := t.sessionCounter + 1), Mint(Sse, t.shard, t.sessionCounter + 1))
    ensures MintedHere(t.(streamCounter := t.streamCounter + 1), Mint(Streamable, t.shard, t.streamCounter + 1))
  {
    OriginOfMint(Sse, t.shard, t.sessionCounter + 1);
    OriginOfMint(Streamable, t.shard, t.streamCounter + 1);
  }

  lemma NextIdsAreNew(t: Table, ids: set<string>)
    requires forall id | id in ids :: MintedHere(t, id)
    ensures Mint(Sse, t.shard, t.sessionCounter + 1) !in ids && Mint(Streamable, t.shard, t.streamCounter + 1) !in ids
  {
    OriginOfMint(Sse, t.shard, t.sessionCounter + 1);
    OriginOfMint(Streamable, t.shard, t.streamCounter + 1);
  }

  // ---- The ledger ----

  /** The ids recorded for an IP. */
  function IdsOf(m: map<string, string>, ip: string): set<string> {
    set id | id in m && m[id] == ip
  }

  /** The count of an IP is the number of ids recorded for it, and there is no zero entry. */
  ghost predicate LedgerExact(t: Table) {
    && (forall ip :: Count(t, ip) == |IdsOf(t.sessionToIp, ip)|)
    && (forall ip | ip in t.ipConnCount :: t.ipConnCount[ip] > 0 && ip != "")
  }

  lemma IdsOfAdded(m: map<string, string>, id: string, ip: string, other: string)
    requires id !in m
    ensures |IdsOf(m[id := ip], other)| == |IdsOf(m, other)| + if other == ip then 1 else 0
  {
    if other == ip {
      assert IdsOf(m[id := ip], other) == IdsOf(m, other) + {id};
    } else {
      assert IdsOf(m[id := ip], other) == IdsOf(m, other);
    }
  }

  lemma IdsOfRemoved(m: map<string, string>, id: string, other: string)
    requires id in m
    ensures |IdsOf(m, other)| == |IdsOf(m - {id}, other)| + if other == m[id] then 1 else 0
  {
    if other == m[id] {
      assert IdsOf(m, other) == IdsOf(m - {id}, other) + {id};
    } else {
      assert IdsOf(m, other) == IdsOf(m - {id}, other);
    }
  }

  lemma CreateKeepsLedger(t: Table, id: string, ip: string)
    requires LedgerExact(t) && id !in t.sessionToIp
    ensures LedgerExact(CreateWithId(t, id, ip))
  {
    var u := CreateWithId(t, id, ip);
    if ip != "" {
      forall other ensures Count(u, other) == |IdsOf(u.sessionToIp, other)| {
        IdsOfAdded(t.sessionToIp, id, ip, other);
      }
    }
  }

  lemma RemoveKeepsLedger(t: Table, id: string)
    requires LedgerExact(t)
    ensures LedgerExact(Remove(t, id))
    ensures id in t.sessionToIp ==> Count(t, t.sessionToIp[id]) > 0
  {
    if id in t.sessionToIp {
      var u := Remove(t, id);
      IdsOfRemoved(t.sessionToIp, id, t.sessionToIp[id]);
      forall other ensures Count(u, other) == |IdsOf(u.sessionToIp, other)| {
        IdsOfRemoved(t.sessionToIp, id, other);
      }
    }
  }

  /**
   create_session_with_id trusts its caller with the id. It keeps the ledger exact if and only if the
   id is not on record yet or the session is not tracked at all.
   */
  lemma CreateWithIdKeepsLedgerIff(t: Table, id: string, ip: string)
    requires LedgerExact(t)
    ensures LedgerExact(CreateWithId(t, id, ip)) <==> id !in t.sessionToIp || ip == ""
  {
    var u := CreateWithId(t, id, ip);
    if id !in t.sessionToIp {
      CreateKeepsLedger(t, id, ip);
    } else if ip != "" {
      var before := t.sessionToIp[id];
      if before == ip {
        assert IdsOf(u.sessionToIp, ip) == IdsOf(t.sessionToIp, ip);
        assert Count(u, ip) == Count(t, ip) + 1;
      } else {
        IdsOfRemoved(t.sessionToIp, id, before);
        assert IdsOf(u.sessionToIp, before) == IdsOf(t.sessionToIp - {id}, before);
        assert Count(u, before) == Count(t, before);
      }
    }
  }

  // ---- Everything a table keeps, over every run ----

  /** The sessions open now, with the IP each was opened for, after one more event. */
  function Record(limit: ConnectionLimit, t: Table, open: map<string, string>, e: Event): map<string, string> {
    match e
    case CreateSse(ip) =>
      if Full(limit, t, ip) then open else open[Create(limit, t, ip).1 := ip]
    case CreateStream(ip) => open[OpenStream(t, ip).1 := ip]
    case Delete(id) => open - {id}
    case Deliver(_, _) => open
    case Take(_) => open
    case Shutdown => map[]
  }

  /** The open sessions as seen from outside: by the answers the calls give, without looking into the tables. */
  function OpenSessions(limit: ConnectionLimit, shard: nat, es: seq<Event>): map<string, string> {
    if es == [] then map[]
    else
      var front := es[..|es| - 1];
      Record(limit, TableAfter(limit, shard, front), OpenSessions(limit, shard, front), es[|es| - 1])
  }

  /** The sessions that a stop took away while they were open and that nobody has removed since, after one more event. */
  function Strand(open: map<string, string>, stranded: map<string, string>, e: Event): map<string, string> {
    match e
    case Delete(id) => stranded - {id}
    case Shutdown => stranded + open
    case _ => stranded
  }

  function Stranded(limit: ConnectionLimit, shard: nat, es: seq<Event>): map<string, string> {
    if es == [] then map[]
    else
      var front := es[..|es| - 1];
      Strand(OpenSessions(limit, shard, front), Stranded(limit, shard, front), es[|es| - 1])
  }

  ghost predicate Good(t: Table) {
    IdsMinted(t) && LedgerExact(t) && forall id | id in t.sessions :: t.sessions[id].active
  }

  lemma MintedGrows(t: Table, u: Table)
    requires t.shard == u.shard && t.sessionCounter <= u.sessionCounter && t.streamCounter <= u.streamCounter
    ensures forall id | MintedHere(t, id) :: MintedHere(u, id)
  {
  }

  lemma CreateWithIdIsGood(t: Table, id: string, ip: string)
    requires Good(t) && id !in t.sessionToIp && MintedHere(t, id)
    ensures Good(CreateWithId(t, id, ip))
  {
    CreateKeepsLedger(t, id, ip);
    MintedGrows(t, CreateWithId(t, id, ip));
  }

  lemma OpenSseIsGood(t: Table, ip: string)
    requires Good(t)
    ensures Good(OpenSse(t, ip).0)
  {
    NextIdsAreFresh(t);
    var u := t.(sessionCounter := t.sessionCounter + 1);
    MintedGrows(t, u);
    assert LedgerExact(u);
    CreateWithIdIsGood(u, Mint(Sse, t.shard, u.sessionCounter), ip);
  }

  lemma OpenStreamIsGood(t: Table, ip: string)
    requires Good(t)
    ensures Good(OpenStream(t, ip).0)
  {
    NextIdsAreFresh(t);
    var u := t.(streamCounter := t.streamCounter + 1);
    MintedGrows(t, u);
    assert LedgerExact(u);
    CreateWithIdIsGood(u, Mint(Streamable, t.shard, u.streamCounter), ip);
  }

  lemma StepIsGood(limit: ConnectionLimit, t: Table, e: Event)
    requires Good(t)
    ensures Good(Step(limit, t, e))
  {
    match e
    case CreateSse(ip) => OpenSseIsGood(t, ip);
    case CreateStream(ip) => OpenStreamIsGood(t, ip);
    case Delete(id) => RemoveKeepsLedger(t, id); MintedGrows(t, Remove(t, id));
    case Deliver(id, msg) => MintedGrows(t, Push(t, id, msg));
    case Take(id) => MintedGrows(t, Pop(t, id));
    case Shutdown => MintedGrows(t, Stop(t));
  }

  lemma CountersGrow(limit: ConnectionLimit, t: Table, e: Event)
    ensures var u := Step(limit, t, e);
      u.shard == t.shard && t.sessionCounter <= u.sessionCounter && t.streamCounter <= u.streamCounter
  {
  }

  lemma TableAfterSnoc(limit: ConnectionLimit, shard: nat, es: seq<Event>, e: Event)
    ensures TableAfter(limit, shard, es + [e]) == Step(limit, TableAfter(limit, shard, es), e)
    ensures OpenSessions(limit, shard, es + [e])
         == Record(limit, TableAfter(limit, shard, es), OpenSessions(limit, shard, es), e)
    ensures Stranded(limit, shard, es + [e]) == Strand(OpenSessions(limit, shard, es), Stranded(limit, shard, es), e)
  {
    assert (es + [e])[..|es|] == es;
  }

  /**
   In every reachable state the ledger is exact, all ids were minted here, and every session still in
   the table is active (so the activity test of push_to_session never fails between two steps).
   */
  lemma {:induction false} TableAlwaysGood(limit: ConnectionLimit, shard: nat, es: seq<Event>)
    ensures Good(TableAfter(limit, shard, es)) && TableAfter(limit, shard, es).shard == shard
    decreases |es|
  {
    if es == [] {
      forall ip ensures IdsOf(map[], ip) == {} {
      }
    } else {
      var t := TableAfter(limit, shard, es[..|es| - 1]);
      TableAlwaysGood(limit, shard, es[..|es| - 1]);
      StepIsGood(limit, t, es[|es| - 1]);
      CountersGrow(limit, t, es[|es| - 1]);
    }
  }

  /** The `> 0` test of remove_session is never needed. */
  lemma GuardIsIdle(limit: ConnectionLimit, shard: nat, es: seq<Event>, id: string)
    ensures var t := TableAfter(limit, shard, es);
      id in t.sessionToIp ==> t.sessionToIp[id] in t.ipConnCount && t.ipConnCount[t.sessionToIp[id]] > 0
  {
    TableAlwaysGood(limit, shard, es);
    RemoveKeepsLedger(TableAfter(limit, shard, es), id);
  }

  ghost predicate Gone(t: Table, id: string) {
    MintedHere(t, id) && id !in t.sessions && id !in t.sessionToIp
  }

  lemma GoneStaysGone(limit: ConnectionLimit, t: Table, id: string, e: Event)
    requires Good(t) && Gone(t, id)
    ensures Gone(Step(limit, t, e), id)
  {
    CountersGrow(limit, t, e);
    MintedGrows(t, Step(limit, t, e));
    NextIdsAreNew(t, {id});
  }

  lemma RemovedIsGone(t: Table, id: string)
    requires MintedHere(t, id)
    ensures Gone(Remove(t, id), id)
  {
  }

  lemma RemovingGoneIsIdle(t: Table, id: string)
    requires Gone(t, id)
    ensures Remove(t, id) == t
  {
  }

  lemma GoneStep(limit: ConnectionLimit, shard: nat, front: seq<Event>, id: string, e: Event)
    requires Gone(TableAfter(limit, shard, front), id)
    ensures Gone(TableAfter(limit, shard, front + [e]), id)
  {
    TableAlwaysGood(limit, shard, front);
    GoneStaysGone(limit, TableAfter(limit, shard, front), id, e);
    TableAfterSnoc(limit, shard, front, e);
  }

  lemma {:induction false} GoneForGood(
      limit: ConnectionLimit, shard: nat, start: seq<Event>, id: string, more: seq<Event>)
    requires Gone(TableAfter(limit, shard, start), id)
    ensures Gone(TableAfter(limit, shard, start + more), id)
    decreases |more|
  {
    if more == [] {
      assert start + more == start;
    } else {
      var front, e := start + more[..|more| - 1], more[|more| - 1];
      GoneForGood(limit, shard, start, id, more[..|more| - 1]);
      GoneStep(limit, shard, front, id, e);
      assert start + more == front + [e];
    }
  }

  /** A removed id never comes back, so removing a session a second time changes nothing, whatever happened in between. */
  lemma {:induction false} SecondRemovalIsIdle(
      limit: ConnectionLimit, shard: nat, es: seq<Event>, id: string, more: seq<Event>)
    requires MintedHere(TableAfter(limit, shard, es), id)
    ensures var t := TableAfter(limit, shard, es + [Delete(id)] + more);
      Gone(t, id) && Remove(t, id) == t
  {
    var start := es + [Delete(id)];
    TableAfterSnoc(limit, shard, es, Delete(id));
    RemovedIsGone(TableAfter(limit, shard, es), id);
    GoneForGood(limit, shard, start, id, more);
    RemovingGoneIsIdle(TableAfter(limit, shard, start + more), id);
  }

  // ---- The tables against the record ----

  /** The part of a record that the ledger tracks: sessions opened for a non-empty IP. */
  function Tracked(m: map<string, string>): map<string, string> {
    map id | id in m && m[id] != "" :: m[id]
  }

  /** Tracked are the open sessions and the stranded ones, and nothing else. */
  ghost predicate Recorded(t: Table, open: map<string, string>, stranded: map<string, string>) {
    && t.sessions.Keys == open.Keys
    && open.Keys !! stranded.Keys
    && t.sessionToIp == Tracked(open + stranded)
  }

  ghost predicate AllMinted(t: Table, ids: set<string>) {
    forall id | id in ids :: MintedHere(t, id)
  }

  lemma TrackedAdded(m: map<string, string>, id: string, ip: string)
    requires id !in m
    ensures Tracked(m[id := ip]) == if ip == "" then Tracked(m) else Tracked(m)[id := ip]
  {
  }

  lemma TrackedRemoved(m: map<string, string>, id: string)
    ensures Tracked(m - {id}) == Tracked(m) - {id}
  {
  }

  lemma CreateRecorded(t: Table, open: map<string, string>, stranded: map<string, string>, id: string, ip: string)
    requires Recorded(t, open, stranded) && id !in t.sessionToIp && id !in open && id !in stranded
    ensures Recorded(CreateWithId(t, id, ip), open[id := ip], stranded)
  {
    assert open[id := ip] + stranded == (open + stranded)[id := ip];
    TrackedAdded(open + stranded, id, ip);
  }

  lemma RemoveRecorded(t: Table, open: map<string, string>, stranded: map<string, string>, id: string)
    requires Recorded(t, open, stranded)
    ensures Recorded(Remove(t, id), open - {id}, stranded - {id})
  {
    assert (open - {id}) + (stranded - {id}) == (open + stranded) - {id};
    TrackedRemoved(open + stranded, id);
    assert id !in t.sessionToIp ==> t.sessionToIp - {id} == t.sessionToIp;
  }

  lemma OpenSseRecorded(t: Table, open: map<string, string>, stranded: map<string, string>, ip: string)
    requires Good(t) && Recorded(t, open, stranded) && AllMinted(t, stranded.Keys)
    ensures Recorded(OpenSse(t, ip).0, open[OpenSse(t, ip).1 := ip], stranded)
  {
    NextIdsAreFresh(t);
    CreateRecorded(t.(sessionCounter := t.sessionCounter + 1), open, stranded, OpenSse(t, ip).1, ip);
  }

  lemma OpenStreamRecorded(t: Table, open: map<string, string>, stranded: map<string, string>, ip: string)
    requires Good(t) && Recorded(t, open, stranded) && AllMinted(t, stranded.Keys)
    ensures Recorded(OpenStream(t, ip).0, open[OpenStream(t, ip).1 := ip], stranded)
  {
    NextIdsAreFresh(t);
    CreateRecorded(t.(streamCounter := t.streamCounter + 1), open, stranded, OpenStream(t, ip).1, ip);
  }

  lemma QueueRecorded(t: Table, u: Table, open: map<string, string>, stranded: map<string, string>)
    requires Recorded(t, open, stranded) && u.sessions.Keys == t.sessions.Keys && u.sessionToIp == t.sessionToIp
    ensures Recorded(u, open, stranded)
  {
  }

  lemma StopRecorded(t: Table, open: map<string, string>, stranded: map<string, string>)
    requires Recorded(t, open, stranded)
    ensures Recorded(Stop(t), map[], stranded + open)
  {
    assert map[] + (stranded + open) == open + stranded;
  }

  lemma CreationRecorded(
      limit: ConnectionLimit, t: Table, open: map<string, string>, stranded: map<string, string>, e: Event)
    requires Good(t) && Recorded(t, open, stranded) && AllMinted(t, stranded.Keys) && (e.CreateSse? || e.CreateStream?)
    ensures Recorded(Step(limit, t, e), Record(limit, t, open, e), stranded)
  {
    if e.CreateStream? {
      OpenStreamRecorded(t, open, stranded, e.ip);
    } else if !Full(limit, t, e.ip) {
      OpenSseRecorded(t, open, stranded, e.ip);
    }
  }

  lemma StepRecorded(
      limit: ConnectionLimit, t: Table, open: map<string, string>, stranded: map<string, string>, e: Event)
    requires Good(t) && Recorded(t, open, stranded) && AllMinted(t, stranded.Keys)
    ensures Recorded(Step(limit, t, e), Record(limit, t, open, e), Strand(open, stranded, e))
  {
    if e.CreateSse? || e.CreateStream? {
      CreationRecorded(limit, t, open, stranded, e);
    } else {
      OtherRecorded(limit, t, open, stranded, e);
    }
  }

  lemma OtherRecorded(
      limit: ConnectionLimit, t: Table, open: map<string, string>, stranded: map<string, string>, e: Event)
    requires Recorded(t, open, stranded) && !e.CreateSse? && !e.CreateStream?
    ensures Recorded(Step(limit, t, e), Record(limit, t, open, e), Strand(open, stranded, e))
  {
    match e
    case Delete(id) => RemoveRecorded(t, open, stranded, id);
    case Deliver(id, msg) => QueueRecorded(t, Push(t, id, msg), open, stranded);
    case Take(id) => QueueRecorded(t, Pop(t, id), open, stranded);
    case Shutdown => StopRecorded(t, open, stranded);
  }

  lemma StepMinted(
      limit: ConnectionLimit, t: Table, open: map<string, string>, stranded: map<string, string>, e: Event)
    requires Good(t) && t.sessions.Keys == open.Keys && AllMinted(t, stranded.Keys)
    ensures AllMinted(Step(limit, t, e), Strand(open, stranded, e).Keys)
  {
    CountersGrow(limit, t, e);
    MintedGrows(t, Step(limit, t, e));
  }

  /** The record and the tables after one more event. */
  lemma RecordedSnoc(
      limit: ConnectionLimit, shard: nat, front: seq<Event>, e: Event,
      t: Table, open: map<string, string>, stranded: map<string, string>)
    requires t == TableAfter(limit, shard, front) && Good(t)
    requires open == OpenSessions(limit, shard, front) && stranded == Stranded(limit, shard, front)
    requires Recorded(t, open, stranded) && AllMinted(t, stranded.Keys)
    ensures var u, stranded' := TableAfter(limit, shard, front + [e]), Stranded(limit, shard, front + [e]);
      Recorded(u, OpenSessions(limit, shard, front + [e]), stranded') && AllMinted(u, stranded'.Keys)
  {
    TableAfterSnoc(limit, shard, front, e);
    StepRecorded(limit, t, open, stranded, e);
    StepMinted(limit, t, open, stranded, e);
  }

  lemma {:induction false} TablesRecordSessions(limit: ConnectionLimit, shard: nat, es: seq<Event>)
    ensures var t, stranded := TableAfter(limit, shard, es), Stranded(limit, shard, es);
      Recorded(t, OpenSessions(limit, shard, es), stranded) && AllMinted(t, stranded.Keys)
    decreases |es|
  {
    if es != [] {
      var front, e := es[..|es| - 1], es[|es| - 1];
      TablesRecordSessions(limit, shard, front);
      TableAlwaysGood(limit, shard, front);
      RecordedSnoc(limit, shard, front, e, TableAfter(limit, shard, front), OpenSessions(limit, shard, front),
                   Stranded(limit, shard, front));
      assert es == front + [e];
    }
  }

  lemma NobodyStranded(open: map<string, string>, e: Event)
    requires !e.Shutdown?
    ensures Strand(open, map[], e) == map[]
  {
  }

  lemma {:induction false} NobodyStrandedBeforeStop(limit: ConnectionLimit, shard: nat, es: seq<Event>)
    requires Shutdown !in es
    ensures Stranded(limit, shard, es) == map[]
    decreases |es|
  {
    if es != [] {
      var front, e := es[..|es| - 1], es[|es| - 1];
      NobodyStrandedBeforeStop(limit, shard, front);
      assert e in es && es == front + [e];
      TableAfterSnoc(limit, shard, front, e);
      NobodyStranded(OpenSessions(limit, shard, front), e);
    }
  }

  lemma Together(t: Table, open: map<string, string>, stranded: map<string, string>, ip: string)
    requires Recorded(t, open, stranded) && ip != ""
    ensures |IdsOf(t.sessionToIp, ip)| == |IdsOf(open, ip)| + |IdsOf(stranded, ip)|
  {
    assert IdsOf(t.sessionToIp, ip) == IdsOf(open, ip) + IdsOf(stranded, ip);
  }

  /**
   The connection ledger, over every run of creations of both kinds, single or double removals and
   stops: the count of a non-empty IP is the number of its open sessions and its stranded ones. So it is
   exact if and only if no session of the IP is stranded, and certainly until the shard is stopped.
   */
  lemma {:induction false} LedgerCountsOpenSessions(limit: ConnectionLimit, shard: nat, es: seq<Event>, ip: string)
    requires ip != ""
    ensures var count, open := Count(TableAfter(limit, shard, es), ip), |IdsOf(OpenSessions(limit, shard, es), ip)|;
      && count == open + |IdsOf(Stranded(limit, shard, es), ip)|
      && (count == open <==> IdsOf(Stranded(limit, shard, es), ip) == {})
      && (Shutdown !in es ==> count == open)
  {
    TableAlwaysGood(limit, shard, es);
    TablesRecordSessions(limit, shard, es);
    if Shutdown !in es {
      NobodyStrandedBeforeStop(limit, shard, es);
      assert IdsOf(map[], ip) == {};
    }
    Together(TableAfter(limit, shard, es), OpenSessions(limit, shard, es), Stranded(limit, shard, es), ip);
  }

  /**
   stop() clears the sessions and leaves the ledger. It keeps the count of an IP exact if and only if
   that count is zero when it is called: before a first stop, if no session of the IP is open.
   */
  lemma StopKeepsLedgerIff(limit: ConnectionLimit, shard: nat, es: seq<Event>, ip: string)
    requires ip != ""
    ensures var stopped := es + [Shutdown];
      var exact := Count(TableAfter(limit, shard, stopped), ip) == |IdsOf(OpenSessions(limit, shard, stopped), ip)|;
      && (exact <==> Count(TableAfter(limit, shard, es), ip) == 0)
      && (Shutdown !in es ==> (exact <==> IdsOf(OpenSessions(limit, shard, es), ip) == {}))
  {
    TableAfterSnoc(limit, shard, es, Shutdown);
    LedgerCountsOpenSessions(limit, shard, es, ip);
    assert IdsOf(map[], ip) == {};
  }

  /** A run in which stop() leaves a count behind. */
  lemma StopLeavesLedger(limit: ConnectionLimit, shard: nat, ip: string)
    requires ip != ""
    ensures var es := [CreateStream(ip), Shutdown];
      Count(TableAfter(limit, shard, es), ip) == 1 && OpenSessions(limit, shard, es) == map[]
  {
    TableAfterSnoc(limit, shard, [], CreateStream(ip));
    TableAfterSnoc(limit, shard, [CreateStream(ip)], Shutdown);
    assert [] + [CreateStream(ip)] == [CreateStream(ip)];
    assert [CreateStream(ip)] + [Shutdown] == [CreateStream(ip), Shutdown];
  }

  lemma StrandedAfterExit(limit: ConnectionLimit, shard: nat, es: seq<Event>, id: string)
    ensures Stranded(limit, shard, es + [Delete(id)]) == Stranded(limit, shard, es) - {id}
  {
    TableAfterSnoc(limit, shard, es, Delete(id));
  }

  /** The exits of these stream loops. */
  function Exits(ids: seq<string>): seq<Event> {
    if ids == [] then [] else Exits(ids[..|ids| - 1]) + [Delete(ids[|ids| - 1])]
  }

  lemma {:induction false} ExitsFree(limit: ConnectionLimit, shard: nat, es: seq<Event>, ids: seq<string>)
    ensures Stranded(limit, shard, es + Exits(ids)) == Stranded(limit, shard, es) - (set id | id in ids)
    decreases |ids|
  {
    if ids == [] {
      assert es + [] == es;
    } else {
      var front, last := ids[..|ids| - 1], ids[|ids| - 1];
      ExitsFree(limit, shard, es, front);
      StrandedAfterExit(limit, shard, es + Exits(front), last);
      Associates(es, Exits(front), [Delete(last)]);
      RemoveAll(Stranded(limit, shard, es), front, last, ids);
    }
  }

  lemma RemoveAll(m: map<string, string>, front: seq<string>, last: string, ids: seq<string>)
    requires ids == front + [last]
    ensures m - (set id | id in front) - {last} == m - (set id | id in ids)
  {
  }

  /** stop() also ends every stream loop. Once the loops of all stranded sessions have exited, the count is exact again. */
  lemma ExitsRepairLedger(limit: ConnectionLimit, shard: nat, es: seq<Event>, ids: seq<string>, ip: string)
    requires ip != "" && forall id | id in IdsOf(Stranded(limit, shard, es), ip) :: id in ids
    ensures var after := es + Exits(ids);
      Count(TableAfter(limit, shard, after), ip) == |IdsOf(OpenSessions(limit, shard, after), ip)|
  {
    ExitsFree(limit, shard, es, ids);
    LedgerCountsOpenSessions(limit, shard, es + Exits(ids), ip);
    NoneLeft(Stranded(limit, shard, es), ids, ip);
  }

  lemma NoneLeft(m: map<string, string>, ids: seq<string>, ip: string)
    requires forall id | id in IdsOf(m, ip) :: id in ids
    ensures IdsOf(m - (set id | id in ids), ip) == {}
  {
  }

  // ---- Connection limits ----

  function SseSessions(open: map<string, string>): set<string> {
    set id | id in open && IsSseId(id)
  }

  function SseSessionsOf(open: map<string, string>, ip: string): set<string> {
    set id | id in open && IsSseId(id) && open[id] == ip
  }

  /**
   With limits on, the open sessions minted by create_session never exceed the per-IP limit for any
   IP nor the total limit, even when sessions created with an id are interleaved.
   */
  lemma {:induction false} LimitsHold(limit: ConnectionLimit, shard: nat, es: seq<Event>, ip: string)
    requires limit.enabled && ip != ""
    ensures WithinLimits(limit, OpenSessions(limit, shard, es), ip)
    decreases |es|
  {
    if es == [] {
      assert SseSessionsOf(map[], ip) == {} && SseSessions(map[]) == {};
    } else {
      var front := es[..|es| - 1];
      LimitsHold(limit, shard, front, ip);
      TableAlwaysGood(limit, shard, front);
      TablesRecordSessions(limit, shard, front);
      LedgerCovers(TableAfter(limit, shard, front), OpenSessions(limit, shard, front), Stranded(limit, shard, front));
      StepWithinLimits(limit, TableAfter(limit, shard, front), OpenSessions(limit, shard, front), es[|es| - 1], ip);
    }
  }

  ghost predicate WithinLimits(limit: ConnectionLimit, open: map<string, string>, ip: string) {
    |SseSessionsOf(open, ip)| <= limit.maxPerIp && |SseSessions(open)| <= limit.maxTotal
  }

  lemma FewerSse(limit: ConnectionLimit, before: map<string, string>, after: map<string, string>, ip: string)
    requires WithinLimits(limit, before, ip)
    requires forall id | id in after && IsSseId(id) :: id in before && after[id] == before[id]
    ensures WithinLimits(limit, after, ip)
  {
    SubsetCardinality(SseSessionsOf(after, ip), SseSessionsOf(before, ip));
    SubsetCardinality(SseSessions(after), SseSessions(before));
  }

  /** The counts are at least the open sessions. */
  ghost predicate Covers(t: Table, open: map<string, string>) {
    t.sessions.Keys == open.Keys && forall ip | ip != "" :: |IdsOf(open, ip)| <= Count(t, ip)
  }

  lemma LedgerCovers(t: Table, open: map<string, string>, stranded: map<string, string>)
    requires LedgerExact(t) && Recorded(t, open, stranded)
    ensures Covers(t, open)
  {
    forall ip | ip != "" ensures |IdsOf(open, ip)| <= Count(t, ip) {
      Together(t, open, stranded, ip);
    }
  }

  lemma OneMoreSse(
      limit: ConnectionLimit, t: Table, before: map<string, string>, id: string, client: string, ip: string)
    requires limit.enabled && ip != "" && WithinLimits(limit, before, ip)
    requires Covers(t, before) && !Full(limit, t, client)
    ensures WithinLimits(limit, before[id := client], ip)
  {
    var after := before[id := client];
    SubsetCardinality(SseSessions(before), t.sessions.Keys);
    SubsetCardinality(SseSessions(after), SseSessions(before) + {id});
    if client == ip {
      SubsetCardinality(SseSessionsOf(before, ip), IdsOf(before, ip));
      SubsetCardinality(SseSessionsOf(after, ip), SseSessionsOf(before, ip) + {id});
    } else {
      SubsetCardinality(SseSessionsOf(after, ip), SseSessionsOf(before, ip));
    }
  }

  lemma StepWithinLimits(limit: ConnectionLimit, t: Table, before: map<string, string>, e: Event, ip: string)
    requires limit.enabled && ip != "" && WithinLimits(limit, before, ip)
    requires Covers(t, before)
    ensures WithinLimits(limit, Record(limit, t, before, e), ip)
  {
    match e
    case CreateSse(client) =>
      if !Full(limit, t, client) {
        OneMoreSse(limit, t, before, Create(limit, t, client).1, client, ip);
      }
    case CreateStream(client) =>
      MintKind(Streamable, t.shard, t.streamCounter + 1);
      FewerSse(limit, before, Record(limit, t, before, e), ip);
    case Delete(id) => FewerSse(limit, before, before - {id}, ip);
    case Deliver(id, msg) =>
    case Take(id) =>
    case Shutdown => FewerSse(limit, before, map[], ip);
  }

  lemma CreateAnswers(limit: ConnectionLimit, t: Table, ip: string)
    requires IdsMinted(t)
    ensures var (u, id) := Create(limit, t, ip);
      && (id == "" <==> limit.enabled && (|t.sessions| >= limit.maxTotal || (ip != "" && Count(t, ip) >= limit.maxPerIp)))
      && (id == "" ==> u == t)
      && (id != "" ==> id !in t.sessions && u.sessions == t.sessions[id := Session([], true)])
  {
    NextIdsAreNew(t, t.sessions.Keys);
    assert OpenSse(t, ip).1 != "";
  }

  /**
   What create_session answers in any run: it refuses exactly if the limits are on and the shard has its
   total of open sessions or the IP has its number of open and stranded ones, and then nothing changes.
   Otherwise it opens one empty, active session under an id that is not open yet.
   */
  lemma CreateRefusesExactly(limit: ConnectionLimit, shard: nat, es: seq<Event>, ip: string)
    ensures var t, open := TableAfter(limit, shard, es), OpenSessions(limit, shard, es);
      var (u, id) := Create(limit, t, ip);
      && (id == "" <==>
            limit.enabled
            && (|open| >= limit.maxTotal
                || (ip != "" && |IdsOf(open, ip)| + |IdsOf(Stranded(limit, shard, es), ip)| >= limit.maxPerIp)))
      && (id == "" ==> u == t)
      && (id != "" ==> id !in open && u.sessions == t.sessions[id := Session([], true)])
  {
    var t, open := TableAfter(limit, shard, es), OpenSessions(limit, shard, es);
    TableAlwaysGood(limit, shard, es);
    TablesRecordSessions(limit, shard, es);
    assert |t.sessions| == |t.sessions.Keys| == |open.Keys| == |open|;
    if ip != "" {
      LedgerCountsOpenSessions(limit, shard, es, ip);
    }
    CreateAnswers(limit, t, ip);
  }

  lemma OpenStreamAnswers(t: Table, ip: string)
    requires IdsMinted(t)
    ensures var (u, id) := OpenStream(t, ip); id !in t.sessions && u.sessions == t.sessions[id := Session([], true)]
  {
    NextIdsAreNew(t, t.sessions.Keys);
  }

  /** Opening a Streamable session never fails, whatever the limits. */
  lemma OpenStreamOpens(limit: ConnectionLimit, shard: nat, es: seq<Event>, ip: string)
    ensures var t := TableAfter(limit, shard, es);
      var (u, id) := OpenStream(t, ip);
      id !in OpenSessions(limit, shard, es) && u.sessions == t.sessions[id := Session([], true)]
  {
    TableAlwaysGood(limit, shard, es);
    TablesRecordSessions(limit, shard, es);
    OpenStreamAnswers(TableAfter(limit, shard, es), ip);
  }

  /**
   In any run, a delivery appends to the queue of an open session, a take removes the head of a queue that
   has one, and both leave everything else as it is.
   */
  lemma QueuesMove(limit: ConnectionLimit, shard: nat, es: seq<Event>, id: string, msg: string)
    ensures var t := TableAfter(limit, shard, es);
      var delivered, taken := TableAfter(limit, shard, es + [Deliver(id, msg)]), TableAfter(limit, shard, es + [Take(id)]);
      t.sessions.Keys == OpenSessions(limit, shard, es).Keys &&
      if id !in t.sessions then delivered == t && taken == t
      else
        && delivered == t.(sessions := t.sessions[id := Session(t.sessions[id].messages + [msg], true)])
        && (t.sessions[id].messages == [] ==> taken == t)
        && (t.sessions[id].messages != [] ==>
              taken == t.(sessions := t.sessions[id := Session(t.sessions[id].messages[1..], true)]))
  {
    TableAlwaysGood(limit, shard, es);
    TablesRecordSessions(limit, shard, es);
    TableAfterSnoc(limit, shard, es, Deliver(id, msg));
    TableAfterSnoc(limit, shard, es, Take(id));
  }

  // ---- When do the limits hold for all sessions? ----

  /** All open sessions of both kinds together keep to the limits. */
  ghost predicate AllWithin(limit: ConnectionLimit, open: map<string, string>) {
    |open| <= limit.maxTotal && forall ip | ip != "" :: |IdsOf(open, ip)| <= limit.maxPerIp
  }

  /** The counts are exactly the open sessions. */
  ghost predicate CountsOpen(t: Table, open: map<string, string>) {
    forall ip | ip != "" :: Count(t, ip) == |IdsOf(open, ip)|
  }

  /** One more session keeps to the limits if create_session would let it in and, with an exact ledger, only then. */
  lemma OneMoreWithinIff(limit: ConnectionLimit, t: Table, open: map<string, string>, id: string, ip: string)
    requires limit.enabled && id !in open && Covers(t, open) && AllWithin(limit, open)
    ensures !Full(limit, t, ip) ==> AllWithin(limit, open[id := ip])
    ensures CountsOpen(t, open) && AllWithin(limit, open[id := ip]) ==> !Full(limit, t, ip)
  {
    var more := open[id := ip];
    assert more.Keys == open.Keys + {id};
    assert |more| == |open| + 1 && |t.sessions| == |open|;
    forall other ensures |IdsOf(more, other)| == |IdsOf(open, other)| + if other == ip then 1 else 0 {
      IdsOfAdded(open, id, ip, other);
    }
  }

  lemma FewerWithin(limit: ConnectionLimit, open: map<string, string>, id: string)
    requires AllWithin(limit, open)
    ensures AllWithin(limit, open - {id})
  {
    SubsetCardinality((open - {id}).Keys, open.Keys);
    forall ip ensures |IdsOf(open - {id}, ip)| <= |IdsOf(open, ip)| {
      SubsetCardinality(IdsOf(open - {id}, ip), IdsOf(open, ip));
    }
  }

  /** The event opens a Streamable session although create_session would have refused it. */
  predicate Overfills(limit: ConnectionLimit, t: Table, e: Event) {
    e.CreateStream? && Full(limit, t, e.ip)
  }

  lemma OneSseWithin(limit: ConnectionLimit, t: Table, open: map<string, string>, ip: string)
    requires limit.enabled && AllWithin(limit, open) && IdsMinted(t) && Covers(t, open) && !Full(limit, t, ip)
    ensures AllWithin(limit, open[OpenSse(t, ip).1 := ip])
  {
    NextIdsAreNew(t, open.Keys);
    OneMoreWithinIff(limit, t, open, OpenSse(t, ip).1, ip);
  }

  lemma OneStreamWithinIff(limit: ConnectionLimit, t: Table, open: map<string, string>, ip: string)
    requires limit.enabled && AllWithin(limit, open) && IdsMinted(t) && Covers(t, open)
    ensures !Full(limit, t, ip) ==> AllWithin(limit, open[OpenStream(t, ip).1 := ip])
    ensures CountsOpen(t, open) && AllWithin(limit, open[OpenStream(t, ip).1 := ip]) ==> !Full(limit, t, ip)
  {
    NextIdsAreNew(t, open.Keys);
    OneMoreWithinIff(limit, t, open, OpenStream(t, ip).1, ip);
  }

  lemma StepWithinIff(limit: ConnectionLimit, t: Table, open: map<string, string>, e: Event)
    requires limit.enabled && AllWithin(limit, open) && IdsMinted(t) && Covers(t, open)
    ensures !Overfills(limit, t, e) ==> AllWithin(limit, Record(limit, t, open, e))
    ensures CountsOpen(t, open) && AllWithin(limit, Record(limit, t, open, e)) ==> !Overfills(limit, t, e)
  {
    match e
    case CreateSse(ip) =>
      if !Full(limit, t, ip) {
        OneSseWithin(limit, t, open, ip);
      }
    case CreateStream(ip) => OneStreamWithinIff(limit, t, open, ip);
    case Delete(id) => FewerWithin(limit, open, id);
    case Deliver(_, _) =>
    case Take(_) =>
    case Shutdown => NobodyWithin(limit);
  }

  lemma NobodyWithin(limit: ConnectionLimit)
    ensures AllWithin(limit, map[])
  {
    assert forall ip :: IdsOf(map[], ip) == {};
  }

  /** At every moment of the run so far. */
  ghost predicate AlwaysWithin(limit: ConnectionLimit, shard: nat, es: seq<Event>) {
    AllWithin(limit, OpenSessions(limit, shard, es)) && (es == [] || AlwaysWithin(limit, shard, es[..|es| - 1]))
  }

  predicate NeverOverfills(limit: ConnectionLimit, shard: nat, es: seq<Event>) {
    es == []
    || (NeverOverfills(limit, shard, es[..|es| - 1])
        && !Overfills(limit, TableAfter(limit, shard, es[..|es| - 1]), es[|es| - 1]))
  }

  lemma LedgerExactBeforeStop(limit: ConnectionLimit, shard: nat, es: seq<Event>)
    requires Shutdown !in es
    ensures CountsOpen(TableAfter(limit, shard, es), OpenSessions(limit, shard, es))
  {
    forall ip | ip != ""
      ensures Count(TableAfter(limit, shard, es), ip) == |IdsOf(OpenSessions(limit, shard, es), ip)|
    {
      LedgerCountsOpenSessions(limit, shard, es, ip);
    }
  }

  /**
   The documented promise, exactly. The open sessions of a shard, Streamable ones included, have kept to
   both limits at every moment if every POST /mcp that opened a stream would have passed the test that
   create_session makes and, until a stop leaves counts behind, only then.
   */
  lemma {:induction false} AlwaysWithinIff(limit: ConnectionLimit, shard: nat, es: seq<Event>)
    requires limit.enabled
    ensures NeverOverfills(limit, shard, es) ==> AlwaysWithin(limit, shard, es)
    ensures Shutdown !in es ==> (AlwaysWithin(limit, shard, es) <==> NeverOverfills(limit, shard, es))
    decreases |es|
  {
    if es == [] {
      NobodyWithin(limit);
    } else {
      var front, e := es[..|es| - 1], es[|es| - 1];
      var t, open := TableAfter(limit, shard, front), OpenSessions(limit, shard, front);
      assert es == front + [e];
      AlwaysWithinIff(limit, shard, front);
      TableAlwaysGood(limit, shard, front);
      TablesRecordSessions(limit, shard, front);
      LedgerCovers(t, open, Stranded(limit, shard, front));
      if AlwaysWithin(limit, shard, front) {
        StepWithinIff(limit, t, open, e);
      }
      if Shutdown !in es {
        LedgerExactBeforeStop(limit, shard, front);
      }
    }
  }

  /** Nothing makes that test: whatever the limits, n Streamable sessions can be open for one IP. */
  lemma {:induction false} StreamsAreUnlimited(limit: ConnectionLimit, shard: nat, ip: string, n: nat)
    returns (es: seq<Event>)
    requires ip != ""
    ensures var t := TableAfter(limit, shard, es); |t.sessions| == n && Count(t, ip) == n
  {
    if n == 0 {
      es := [];
    } else {
      var front := StreamsAreUnlimited(limit, shard, ip, n - 1);
      es := front + [CreateStream(ip)];
      TableAfterSnoc(limit, shard, front, CreateStream(ip));
      TableAlwaysGood(limit, shard, front);
      NextIdsAreFresh(TableAfter(limit, shard, front));
    }
  }
}
