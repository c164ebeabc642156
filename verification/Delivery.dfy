/** What routing guarantees: delivery to the right queue, exact accounting, and what a client receives. */
module Delivery {
  import opened Prelude
  import opened Digits
  import opened SessionIds
  import opened Sessions
  import opened Cluster
  import Shards = Cluster
  import EventStream
  import Chunked
  import StreamCodec

  /** A minted id names the shard it was minted on; the HTTP/SSE parser sees that only for its own ids and shard 0. */
  lemma MintedNamesHome(t: Table, id: string)
    requires MintedHere(t, id) && t.shard < TWO_32
    ensures ParseStreamable(id) == t.shard
    ensures ParseSse(id) == t.shard <==> IsSseId(id) || t.shard == 0
  {
    var st := Origin(id).value;
    assert MintStamp(st) == id;
    StreamableInverts(st.kind, st.shard, st.counter);
    SseInvertsExactly(st.kind, st.shard, st.counter);
    MintKind(st.kind, st.shard, st.counter);
  }

  /** The transport that routes the parcel can read the shard of its session. */
  predicate Readable(p: Parcel, home: nat) {
    p.via.Streamable? || IsSseId(p.id) || home == 0
  }

  /** A parcel for a session on shard `home` is addressed to that shard exactly if its transport can read the id. */
  lemma {:induction false} AddressedHomeIff(c: Cluster, home: nat, p: Parcel)
    requires NodesGood(c.nodes) && home < |c.nodes| <= TWO_32 && p.id in c.nodes[home].sessions
    ensures Parse(p.via, p.id) == home <==> Readable(p, home)
  {
    MintedNamesHome(c.nodes[home], p.id);
  }

  /** Sessions other than one keep their queues. */
  ghost predicate OthersUntouched(c: Cluster, d: Cluster, id: string) {
    && |d.nodes| == |c.nodes|
    && forall k: nat | k < |c.nodes| ::
      && d.nodes[k].sessions.Keys == c.nodes[k].sessions.Keys
      && forall other | other in c.nodes[k].sessions && other != id ::
           d.nodes[k].sessions[other] == c.nodes[k].sessions[other]
  }

  /** Put in its session's queue, once, and nowhere else. */
  ghost predicate Delivered(c: Cluster, d: Cluster, home: nat, p: Parcel)
    requires home < |c.nodes| && p.id in c.nodes[home].sessions
  {
    && OthersUntouched(c, d, p.id)
    && d.nodes[home].sessions[p.id].messages == c.nodes[home].sessions[p.id].messages + [p.msg]
    && History(d.logs, p.id) == History(c.logs, p.id) + [p.msg]
    && d.appended == c.appended + multiset{p} && d.dropped == c.dropped
  }

  ghost predicate Lost(c: Cluster, d: Cluster, p: Parcel) {
    d.nodes == c.nodes && d.logs == c.logs && d.appended == c.appended && d.dropped == c.dropped + multiset{p}
  }

  lemma DepositAtHome(c: Cluster, home: nat, p: Parcel)
    requires NodesGood(c.nodes) && home < |c.nodes| && p.id in c.nodes[home].sessions
    ensures Delivered(c, Deposit(c, home, p), home, p)
  {
    assert Good(c.nodes[home]);
  }

  lemma DepositElsewhere(c: Cluster, home: nat, k: nat, p: Parcel)
    requires NodesGood(c.nodes) && home < |c.nodes| && k < |c.nodes| && k != home && p.id in c.nodes[home].sessions
    ensures Lost(c, Deposit(c, k, p), p)
  {
    SessionsAreUnique(c.nodes);
  }

  lemma ArrivesAtHome(c: Cluster, home: nat, p: Parcel, rest: multiset<Parcel>)
    requires NodesGood(c.nodes) && home < |c.nodes| && p.id in c.nodes[home].sessions
    ensures var d := Deposit(c.(letters := rest), home, p); Delivered(c, d, home, p) && d.letters == rest
  {
    DepositAtHome(c.(letters := rest), home, p);
  }

  lemma ArrivesElsewhere(c: Cluster, home: nat, k: nat, p: Parcel, rest: multiset<Parcel>)
    requires NodesGood(c.nodes) && home < |c.nodes| && k < |c.nodes| && k != home && p.id in c.nodes[home].sessions
    ensures var d := Deposit(c.(letters := rest), k, p); Lost(c, d, p) && d.letters == rest
  {
    DepositElsewhere(c.(letters := rest), home, k, p);
  }

  /**
   Delivery of a parcel that was sent across shards, in any state whose tables are good, as those of every
   reachable state are. If its session is open on any shard when the parcel
   arrives, the parcel ends up in that session's queue, exactly once and nowhere else, if and only if
   the routing transport can read the id; otherwise it is dropped although the session is there.
   */
  lemma ArrivalDeliversIff(limit: ConnectionLimit, c: Cluster, p: Parcel, target: nat, home: nat)
    requires NodesGood(c.nodes) && |c.nodes| <= TWO_32
    requires p in c.letters && target < |c.nodes| && target == Parse(p.via, p.id)
    requires home < |c.nodes| && p.id in c.nodes[home].sessions
    ensures var d := Do(limit, c, Arrive(p, target));
      && d.letters == c.letters - multiset{p}
      && (Readable(p, home) ==> Delivered(c, d, home, p))
      && (!Readable(p, home) ==> Lost(c, d, p))
  {
    AddressedHomeIff(c, home, p);
    if target == home {
      ArrivesAtHome(c, home, p, c.letters - multiset{p});
    } else {
      ArrivesElsewhere(c, home, target, p, c.letters - multiset{p});
    }
  }

  /** The same for a response: delivered at once on its own shard, sent to it from any other. */
  lemma {:induction false} ResponseReachesHomeIff(limit: ConnectionLimit, c: Cluster, k: nat, p: Parcel, target: nat, home: nat)
    requires NodesGood(c.nodes) && |c.nodes| <= TWO_32
    requires k < |c.nodes| && EventStream.Carriable(p.msg) && target == Parse(p.via, p.id)
    requires home < |c.nodes| && p.id in c.nodes[home].sessions
    ensures var d := Do(limit, c, Respond(k, p, target));
      && d.routed == c.routed + multiset{p}
      && (Readable(p, home) && k == home ==> Delivered(c, d, home, p) && d.letters == c.letters)
      && (target != k ==> d.nodes == c.nodes && d.letters == c.letters + multiset{p})
      && (!Readable(p, home) ==> target == 0 && (k == 0 ==> Lost(c, d, p)))
  {
    AddressedHomeIff(c, home, p);
    if !Readable(p, home) {
      UnreadableGoesToZero(c, home, p);
    }
    if target == k {
      if k == home {
        DepositAtHome(c, home, p);
      } else {
        DepositElsewhere(c, home, k, p);
      }
    }
  }

  /** A notification is put in the queue of a session of its own shard, or dropped. */
  lemma NotifyDeliversIff(limit: ConnectionLimit, c: Cluster, k: nat, p: Parcel)
    requires NodesGood(c.nodes) && k < |c.nodes| && EventStream.Carriable(p.msg)
    ensures var d := Do(limit, c, Notify(k, p));
      && d.routed == c.routed + multiset{p} && d.letters == c.letters
      && (p.id in c.nodes[k].sessions ==> Delivered(c, d, k, p))
      && (p.id !in c.nodes[k].sessions ==> Lost(c, d, p))
  {
    if p.id in c.nodes[k].sessions {
      DepositAtHome(c, k, p);
    }
  }

  // ---- Opening, closing and writing ----

  /** On shard k the session is in no table any more; all other sessions and all other shards are as before. */
  ghost predicate GoneFrom(nodes: seq<Table>, after: seq<Table>, k: nat, id: string)
    requires k < |nodes| == |after|
  {
    && id !in after[k].sessions && id !in after[k].sessionToIp
    && after[k].sessions == nodes[k].sessions - {id}
    && after == nodes[k := after[k]]
  }

  lemma RemovedFrom(nodes: seq<Table>, k: nat, id: string)
    requires k < |nodes|
    ensures GoneFrom(nodes, nodes[k := Remove(nodes[k], id)], k, id)
  {
  }

  /** A session that is on record anywhere is on the shard its id names. */
  lemma OnRecordAtHome(nodes: seq<Table>, j: nat, id: string)
    requires NodesGood(nodes) && j < |nodes| <= TWO_32
    requires id in nodes[j].sessions || id in nodes[j].sessionToIp
    ensures ParseStreamable(id) == j
  {
    assert Good(nodes[j]);
    MintedNamesHome(nodes[j], id);
  }

  lemma OnRecordNowhereElse(nodes: seq<Table>, id: string)
    requires NodesGood(nodes) && |nodes| <= TWO_32
    ensures forall j: nat | j < |nodes| && j != ParseStreamable(id) :: id !in nodes[j].sessions && id !in nodes[j].sessionToIp
  {
    forall j: nat | j < |nodes| && j != ParseStreamable(id)
      ensures id !in nodes[j].sessions && id !in nodes[j].sessionToIp
    {
      if id in nodes[j].sessions || id in nodes[j].sessionToIp {
        OnRecordAtHome(nodes, j, id);
      }
    }
  }

  lemma RemovedEverywhere(nodes: seq<Table>, after: seq<Table>, id: string)
    requires NodesGood(nodes) && ParseStreamable(id) < |nodes| == |after| <= TWO_32
    requires GoneFrom(nodes, after, ParseStreamable(id), id)
    ensures forall j: nat | j < |after| :: id !in after[j].sessions && id !in after[j].sessionToIp
  {
    OnRecordNowhereElse(nodes, id);
  }

  /**
   DELETE takes effect on the shard the id names, at once or when the message gets there; then the
   session is on no shard at all, in no table, and every other session is untouched. Until it gets there
   nothing but the message exists.
   */
  lemma CloseRemoves(limit: ConnectionLimit, c: Cluster, s: Step)
    requires NodesGood(c.nodes) && |c.nodes| <= TWO_32 && (s.Close? || s.ArriveClosing?)
    requires if s.Close? then s.shard < |c.nodes| else s.id in c.closings && s.target < |c.nodes|
    requires s.target == ParseStreamable(s.id)
    ensures var d := Do(limit, c, s);
      if s.Close? && s.target != s.shard then d == c.(closings := c.closings + multiset{s.id})
      else
        && GoneFrom(c.nodes, d.nodes, s.target, s.id)
        && d.closings == c.closings - (if s.ArriveClosing? then multiset{s.id} else multiset{})
        && forall j: nat | j < |d.nodes| :: s.id !in d.nodes[j].sessions && s.id !in d.nodes[j].sessionToIp
  {
    if s.ArriveClosing? || s.target == s.shard {
      RemovedFrom(c.nodes, s.target, s.id);
      RemovedEverywhere(c.nodes, c.nodes[s.target := Remove(c.nodes[s.target], s.id)], s.id);
    }
  }

  /** The end of a stream loop removes its session, a stop all sessions of its shard. */
  lemma ExitRemoves(limit: ConnectionLimit, c: Cluster, k: nat, id: string)
    requires k < |c.nodes|
    ensures GoneFrom(c.nodes, Do(limit, c, Exit(k, id)).nodes, k, id)
    ensures var d := Do(limit, c, Halt(k));
      d.nodes[k].sessions == map[] && d.nodes == c.nodes[k := d.nodes[k]]
  {
    RemovedFrom(c.nodes, k, id);
  }

  lemma NewIdIsNowhere(nodes: seq<Table>, k: nat, id: string)
    requires NodesGood(nodes) && k < |nodes| <= TWO_32 && ParseStreamable(id) == k && id !in nodes[k].sessions
    ensures forall j: nat | j < |nodes| :: id !in nodes[j].sessions
  {
    OnRecordNowhereElse(nodes, id);
  }

  /** The shard opens one empty, active session under this id. */
  ghost predicate OpensOne(t: Table, u: Table, id: string) {
    id !in t.sessions && u.sessions == t.sessions[id := Session([], true)] && ParseStreamable(id) == t.shard
  }

  lemma SseOpensOne(t: Table, ip: string)
    requires IdsMinted(t) && t.shard < TWO_32
    ensures OpensOne(t, OpenSse(t, ip).0, OpenSse(t, ip).1)
  {
    NextIdsAreNew(t, t.sessions.Keys);
    StreamableInverts(Sse, t.shard, t.sessionCounter + 1);
  }

  lemma StreamOpensOne(t: Table, ip: string)
    requires IdsMinted(t) && t.shard < TWO_32
    ensures OpensOne(t, OpenStream(t, ip).0, OpenStream(t, ip).1)
  {
    NextIdsAreNew(t, t.sessions.Keys);
    StreamableInverts(Streamable, t.shard, t.streamCounter + 1);
  }

  lemma TableOpensOne(limit: ConnectionLimit, t: Table, kind: Kind, ip: string) returns (id: string)
    requires IdsMinted(t) && t.shard < TWO_32
    requires kind.Sse? ==> !(limit.enabled && (|t.sessions| >= limit.maxTotal || (ip != "" && Count(t, ip) >= limit.maxPerIp)))
    ensures OpensOne(t, Shards.Create(limit, t, kind, ip), id)
  {
    if kind.Sse? {
      SseOpensOne(t, ip);
      id := OpenSse(t, ip).1;
    } else {
      StreamOpensOne(t, ip);
      id := OpenStream(t, ip).1;
    }
  }

  /** Opening adds one empty, active session to its shard under an id that no shard has, unless the limits refuse it. */
  lemma OpenAddsOne(limit: ConnectionLimit, c: Cluster, k: nat, kind: Kind, ip: string) returns (id: string)
    requires NodesGood(c.nodes) && k < |c.nodes| <= TWO_32
    ensures var d, t := Do(limit, c, Open(k, kind, ip)), c.nodes[k];
      if kind.Sse? && limit.enabled && (|t.sessions| >= limit.maxTotal || (ip != "" && Count(t, ip) >= limit.maxPerIp))
      then d == c
      else
        && (forall j: nat | j < |c.nodes| :: id !in c.nodes[j].sessions)
        && OpensOne(t, d.nodes[k], id) && d.nodes == c.nodes[k := d.nodes[k]]
  {
    var t := c.nodes[k];
    id := "";
    if !(kind.Sse? && limit.enabled && (|t.sessions| >= limit.maxTotal || (ip != "" && Count(t, ip) >= limit.maxPerIp))) {
      id := TableOpensOne(limit, t, kind, ip);
      NewIdIsNowhere(c.nodes, k, id);
    } else {
      assert c.nodes[k := t] == c.nodes;
    }
  }

  lemma PopTakesHead(t: Table, id: string)
    requires id in t.sessions && t.sessions[id].messages != []
    ensures Pop(t, id).sessions == t.sessions[id := t.sessions[id].(messages := t.sessions[id].messages[1..])]
  {
  }

  /** Writing takes the head of one queue and adds it to what that session's client was sent. */
  lemma WriteMovesHead(limit: ConnectionLimit, c: Cluster, k: nat, id: string)
    requires k < |c.nodes| && id in c.nodes[k].sessions
    requires c.nodes[k].sessions[id].active && c.nodes[k].sessions[id].messages != []
    ensures var d, queue := Do(limit, c, Write(k, id)), c.nodes[k].sessions[id].messages;
      && OthersUntouched(c, d, id) && id in d.nodes[k].sessions && d.nodes[k].sessions[id].messages == queue[1..]
      && History(d.written, id) == History(c.written, id) + [queue[0]]
      && forall other | other != id :: History(d.written, other) == History(c.written, other)
  {
    PopTakesHead(c.nodes[k], id);
  }

  /** What is sent to a shard that exists can arrive there at any later time, and stays in flight until it does. */
  lemma LettersWait(limit: ConnectionLimit, c: Cluster, s: Step, p: Parcel)
    requires Enabled(c, s) && p in c.letters
    ensures Parse(p.via, p.id) < |c.nodes| ==>
      Enabled(c, Arrive(p, Parse(p.via, p.id))) && Addressed(Arrive(p, Parse(p.via, p.id)))
    ensures (s.Arrive? && s.parcel == p) || p in Do(limit, c, s).letters
  {
  }

  lemma ClosingsWait(limit: ConnectionLimit, c: Cluster, s: Step, id: string)
    requires Enabled(c, s) && id in c.closings
    ensures ParseStreamable(id) < |c.nodes| ==>
      Enabled(c, ArriveClosing(id, ParseStreamable(id))) && Addressed(ArriveClosing(id, ParseStreamable(id)))
    ensures (s.ArriveClosing? && s.id == id) || id in Do(limit, c, s).closings
  {
  }

  lemma UnreadableGoesToZero(c: Cluster, home: nat, p: Parcel)
    requires NodesGood(c.nodes) && home < |c.nodes| <= TWO_32 && p.id in c.nodes[home].sessions && !Readable(p, home)
    ensures Parse(p.via, p.id) == 0
  {
    assert MintedHere(c.nodes[home], p.id);
    var st := Origin(p.id).value;
    assert MintStamp(st) == p.id;
    MintKind(st.kind, st.shard, st.counter);
    SseInvertsExactly(st.kind, st.shard, st.counter);
  }

  /**
   Accounting, in every reachable state: each message routed to a session is, as often as it was routed,
   still in flight, in that session's log, or dropped. So none is delivered twice or to another session.
   */
  lemma EveryMessageAccountedFor(
      limit: ConnectionLimit, n: nat, trace: seq<Cluster>, ss: seq<Step>, t: nat, id: string, msg: string)
    requires IsRun(limit, n, trace, ss) && t <= |ss|
    ensures var c := trace[t];
      && Times(c.routed, id, msg)
         == Times(c.letters, id, msg) + multiset(History(c.logs, id))[msg] + Times(c.dropped, id, msg)
      && (msg in History(c.logs, id) ==> Times(c.routed, id, msg) > 0)
  {
    var c := trace[t];
    AlwaysCoherent(limit, n, trace, ss, t);
    assert multiset(History(c.logs, id))[msg] == Times(c.appended, id, msg);
    assert c.routed == c.letters + c.appended + c.dropped;
  }

  /** A queue holds, in order, what was delivered to its session and not written yet. */
  lemma QueueIsUnwrittenLog(
      limit: ConnectionLimit, n: nat, trace: seq<Cluster>, ss: seq<Step>, t: nat, k: nat, id: string)
    requires IsRun(limit, n, trace, ss) && t <= |ss| && k < |trace[t].nodes| && id in trace[t].nodes[k].sessions
    ensures var c := trace[t];
      History(c.logs, id) == History(c.written, id) + c.nodes[k].sessions[id].messages
  {
    AlwaysCoherent(limit, n, trace, ss, t);
  }

  /** How a session's stream begins: GET /sse announces the endpoint, the Streamable transport announces nothing. */
  function Opening(id: string): string {
    if IsSseId(id) then EventStream.EndpointFrame(id) else ""
  }

  function OpeningEvents(id: string): seq<EventStream.Event> {
    if IsSseId(id) then [EventStream.Event("endpoint", "/message?sessionId=" + id)] else []
  }

  lemma OneWrittenWasRouted(
      limit: ConnectionLimit, n: nat, trace: seq<Cluster>, ss: seq<Step>, t: nat, id: string, msg: string)
    requires IsRun(limit, n, trace, ss) && t <= |ss| && msg in History(trace[t].logs, id)
    ensures EventStream.Carriable(msg) && Times(trace[t].routed, id, msg) > 0
  {
    EveryMessageAccountedFor(limit, n, trace, ss, t, id, msg);
    AlwaysCoherent(limit, n, trace, ss, t);
  }

  lemma WrittenIsLogged(
      limit: ConnectionLimit, n: nat, trace: seq<Cluster>, ss: seq<Step>, t: nat, id: string)
    requires IsRun(limit, n, trace, ss) && t <= |ss|
    ensures History(trace[t].written, id) <= History(trace[t].logs, id)
  {
    AlwaysCoherent(limit, n, trace, ss, t);
  }

  lemma {:induction false} WrittenWasRouted(
      limit: ConnectionLimit, n: nat, trace: seq<Cluster>, ss: seq<Step>, t: nat, id: string)
    requires IsRun(limit, n, trace, ss) && t <= |ss|
    ensures History(trace[t].written, id) <= History(trace[t].logs, id)
    ensures forall msg | msg in History(trace[t].written, id) ::
      EventStream.Carriable(msg) && Times(trace[t].routed, id, msg) > 0
  {
    WrittenIsLogged(limit, n, trace, ss, t, id);
    var written, log := History(trace[t].written, id), History(trace[t].logs, id);
    forall msg | msg in written ensures EventStream.Carriable(msg) && Times(trace[t].routed, id, msg) > 0 {
      var i :| 0 <= i < |written| && written[i] == msg;
      assert log[i] == msg;
      OneWrittenWasRouted(limit, n, trace, ss, t, id, msg);
    }
  }

  /** The stream of any minted session decodes to its opening and its messages. */
  lemma StreamDecodes(nodes: seq<Table>, id: string, msgs: seq<string>, bufs: seq<string>)
    requires Minted(nodes, id) && forall msg | msg in msgs :: EventStream.Carriable(msg)
    requires Concat(bufs) == Opening(id) + EventStream.Frames(msgs)
    ensures StreamCodec.Receive(Chunked.Chunks(bufs) + Chunked.LAST_CHUNK)
         == Some(OpeningEvents(id) + EventStream.AsEvents(msgs))
  {
    if IsSseId(id) {
      var st := Origin(id).value;
      assert MintStamp(st) == id;
      MintIsOneLine(st.kind, st.shard, st.counter);
      StreamCodec.EndpointStreamRoundTrip(id, msgs, bufs);
    } else {
      assert "" + EventStream.Frames(msgs) == EventStream.Frames(msgs);
      assert [] + EventStream.AsEvents(msgs) == EventStream.AsEvents(msgs);
      StreamCodec.StreamRoundTrip(msgs, bufs);
    }
  }

  /**
   End to end, for both transports. However the bytes of a session's stream are cut into buffers and
   chunks, its client sees, after the endpoint event if there is one, as event data and in order, a
   prefix of what was delivered to the session, each message routed to it.
   */
  lemma {:induction false} ClientSeesItsOwnMessages(
      limit: ConnectionLimit, n: nat, trace: seq<Cluster>, ss: seq<Step>, t: nat, id: string, bufs: seq<string>)
    requires IsRun(limit, n, trace, ss) && t <= |ss| && Minted(trace[t].nodes, id)
    requires Concat(bufs) == Opening(id) + EventStream.Frames(History(trace[t].written, id))
    ensures var c := trace[t];
      && StreamCodec.Receive(Chunked.Chunks(bufs) + Chunked.LAST_CHUNK)
         == Some(OpeningEvents(id) + EventStream.AsEvents(History(c.written, id)))
      && History(c.written, id) <= History(c.logs, id)
      && forall msg | msg in History(c.written, id) :: Times(c.routed, id, msg) > 0
  {
    WrittenWasRouted(limit, n, trace, ss, t, id);
    StreamDecodes(trace[t].nodes, id, History(trace[t].written, id), bufs);
  }

  /** Two shards, one Streamable session open on shard 1. */
  lemma OpenOnShardOne(limit: ConnectionLimit) returns (b: Cluster, id: string)
    ensures Next(limit, Init(2), Open(1, Streamable, ""), b)
    ensures b.nodes == [EmptyTable(0), b.nodes[1]] && b.nodes[1].sessions == map[id := NEW_SESSION]
    ensures b.routed == b.dropped == multiset{} && ParseSse(id) == 0
  {
    b := Do(limit, Init(2), Open(1, Streamable, ""));
    id := OpenStream(EmptyTable(1), "").1;
    SseInvertsExactly(Streamable, 1, 1);
  }

  /** A reachable loss: a Streamable session of shard 1, answered through the HTTP/SSE transport. */
  lemma UnreadableIdIsLost(limit: ConnectionLimit, msg: string)
    returns (trace: seq<Cluster>, ss: seq<Step>, p: Parcel)
    requires EventStream.Carriable(msg)
    ensures IsRun(limit, 2, trace, ss) && |ss| == 2 && |trace[2].nodes| == 2 && p.msg == msg
    ensures p.id in trace[2].nodes[1].sessions && trace[2].nodes[1].sessions[p.id].messages == []
    ensures trace[2].routed == trace[2].dropped == multiset{p}
  {
    var b, id := OpenOnShardOne(limit);
    p := Parcel(Sse, id, msg);
    var answer := Respond(0, p, 0);
    var c := Note(b, p).(dropped := multiset{p});
    assert id !in b.nodes[0].sessions;
    assert Do(limit, b, answer) == c;
    assert Next(limit, b, answer, c);
    trace, ss := [Init(2), b, c], [Open(1, Streamable, ""), answer];
  }
}
