/** What each shard keeps to itself: its subscriptions and the requests it sent to clients. */
module CrossShard {
  import opened Prelude
  import opened Digits
  import opened Json
  import opened Sessions
  import opened Cluster
  import Subscriptions
  import Rpc = ClientRpc

  // ---- Subscriptions ----

  /** A shard that runs notify_resource_updated puts the message in this session's queue. */
  predicate Notifies(t: Table, subs: Subscriptions.Subs, uri: string, id: string) {
    id in t.sessions && t.sessions[id].active && (uri, id) in Subscriptions.Rel(subs)
  }

  /** Some shard does, when all are told that the resource was updated. */
  ghost predicate Hears(nodes: seq<Table>, subs: seq<Subscriptions.Subs>, uri: string, id: string)
    requires |subs| == |nodes|
  {
    exists i: nat :: i < |nodes| && Notifies(nodes[i], subs[i], uri, id)
  }

  /**
   resources/subscribe is recorded on the shard that ran the dispatch. For a session of shard `home`
   that was not subscribed yet, it has the wanted effect if and only if that is shard `home` itself.
   */
  lemma SubscribeIsHeardIff(
      nodes: seq<Table>, subs: seq<Subscriptions.Subs>, home: nat, k: nat, uri: string, id: string)
    requires NodesGood(nodes) && |subs| == |nodes| && home < |nodes| && k < |nodes|
    requires id in nodes[home].sessions && id != "" && !Hears(nodes, subs, uri, id)
    ensures Hears(nodes, subs[k := Subscriptions.Subscribe(subs[k], id, uri)], uri, id) <==> k == home
  {
    var after := subs[k := Subscriptions.Subscribe(subs[k], id, uri)];
    SessionsAreUnique(nodes);
    Subscriptions.SubscribeInserts(subs[k], id, uri);
    assert Good(nodes[home]);
    assert !Notifies(nodes[home], subs[home], uri, id);
    assert forall i: nat | i < |nodes| && i != home :: id !in nodes[i].sessions;
    if k == home {
      assert Notifies(nodes[home], after[home], uri, id);
    } else {
      assert forall i: nat | i < |nodes| :: !Notifies(nodes[i], after[i], uri, id);
    }
  }

  // ---- Server-to-client requests ----

  /** The request was issued in this run of a shard, and nothing has completed it. */
  ghost predicate Outstanding(es: seq<Rpc.Event>, n: nat) {
    1 <= n <= Rpc.After(es, |es|).counter && !Rpc.Done(es, |es|, n)
  }

  lemma {:induction false} AfterPrefix(es: seq<Rpc.Event>, e: Rpc.Event, k: nat)
    requires k <= |es|
    ensures Rpc.After(es + [e], k) == Rpc.After(es, k)
  {
    if k > 0 {
      AfterPrefix(es, e, k - 1);
    }
  }

  lemma Received(es: seq<Rpc.Event>, response: Json)
    ensures var more := es + [Rpc.Received(response)];
      Rpc.After(more, |more|) == Rpc.Handle(Rpc.After(es, |es|), response)
  {
    AfterPrefix(es, Rpc.Received(response), |es|);
  }

  /**
   Request ids are counted on each shard. The answer to an outstanding request n of shard `home`
   completes it if and only if it is posted there. Posted on shard k, it completes that shard's own
   request n if one is outstanding, with a result meant for somebody else, and is ignored otherwise.
   */
  lemma AnswerCompletesIff(runs: seq<seq<Rpc.Event>>, home: nat, k: nat, n: nat, value: Json)
    requires home < |runs| && k < |runs| && n < TWO_64 && Outstanding(runs[home], n)
    ensures var after := runs[k := runs[k] + [Rpc.Received(Rpc.ResultFor(Int(n), value))]];
      var before, now := Rpc.After(runs[k], |runs[k]|), Rpc.After(after[k], |after[k]|);
      && (!Outstanding(after[home], n) <==> k == home)
      && (if Outstanding(runs[k], n) then n in now.completed && now.completed[n] == Rpc.Result(value) else now == before)
  {
    var answer := Rpc.ResultFor(Int(n), value);
    var more := runs[k] + [Rpc.Received(answer)];
    Rpc.TablesTellHistory(runs[k], |runs[k]|, n);
    Rpc.TablesTellHistory(more, |more|, n);
    Received(runs[k], answer);
  }
}
