/** The subscription table, uri -> set of sessions, as a relation. */
module Subscriptions {
  import opened Prelude

  type Subs = map<string, set<string>>

  /** The relation the table stands for. */
  function Rel(subs: Subs): set<(string, string)> {
    set uri, s | uri in subs && s in subs[uri] :: (uri, s)
  }

  /** No uri is kept with nobody subscribed to it. */
  ghost predicate NoEmptySets(subs: Subs) {
    forall uri | uri in subs :: subs[uri] != {}
  }

  /** subscribe_resource */
  function Subscribe(subs: Subs, current: string, uri: string): Subs {
    if current == "" then subs
    else subs[uri := (if uri in subs then subs[uri] else {}) + {current}]
  }

  /** unsubscribe_resource */
  function Unsubscribe(subs: Subs, current: string, uri: string): Subs {
    if current == "" || uri !in subs then subs
    else if subs[uri] - {current} == {} then subs - {uri}
    else subs[uri := subs[uri] - {current}]
  }

  /** The table without one session: what the erase-while-iterating loop of cleanup_subscriptions leaves. */
  function Cleanup(subs: Subs, session: string): Subs {
    map uri | uri in subs && subs[uri] - {session} != {} :: subs[uri] - {session}
  }

  lemma SubscribeInserts(subs: Subs, current: string, uri: string)
    requires current != ""
    ensures Rel(Subscribe(subs, current, uri)) == Rel(subs) + {(uri, current)}
    ensures NoEmptySets(subs) ==> NoEmptySets(Subscribe(subs, current, uri))
  {
  }

  lemma UnsubscribeDeletes(subs: Subs, current: string, uri: string)
    requires current != ""
    ensures Rel(Unsubscribe(subs, current, uri)) == Rel(subs) - {(uri, current)}
    ensures NoEmptySets(subs) ==> NoEmptySets(Unsubscribe(subs, current, uri))
  {
    var after := Unsubscribe(subs, current, uri);
    forall u, s ensures (u, s) in Rel(after) <==> (u, s) in Rel(subs) && (u, s) != (uri, current) {
      if uri in subs && u == uri {
        assert s in subs[uri] - {current} <==> s in subs[uri] && s != current;
      }
    }
  }

  lemma CleanupDrops(subs: Subs, session: string)
    ensures Rel(Cleanup(subs, session)) == set p | p in Rel(subs) && p.1 != session
    ensures NoEmptySets(Cleanup(subs, session))
  {
    var after := Cleanup(subs, session);
    forall u, s ensures (u, s) in Rel(after) <==> (u, s) in Rel(subs) && s != session {
      if u in subs && s in subs[u] && s != session {
        assert s in subs[u] - {session};
      }
    }
  }

  /** Without empty sets the relation determines the table: the table is nothing more than its relation. */
  lemma RelationDeterminesTable(a: Subs, b: Subs)
    requires NoEmptySets(a) && NoEmptySets(b) && Rel(a) == Rel(b)
    ensures a == b
  {
    SameUris(a, b);
    SameUris(b, a);
    forall uri | uri in a ensures a[uri] == b[uri] {
      forall s ensures s in a[uri] <==> s in b[uri] {
        assert (uri, s) in Rel(a) <==> (uri, s) in Rel(b);
      }
    }
  }

  lemma SameUris(a: Subs, b: Subs)
    requires NoEmptySets(a) && Rel(a) == Rel(b)
    ensures forall uri | uri in a :: uri in b
  {
    forall uri | uri in a ensures uri in b {
      var s :| s in a[uri];
      assert (uri, s) in Rel(a);
    }
  }
}
