/** The route registry: one index by full peer id, one by its first 16 bytes. */
module Registry {
  import opened Bytes
  import opened Frames
  import opened Messages

  type RouteId = SessionId

  /** A route names the connection whose outgoing channel it holds; a connection has exactly one channel. */
  datatype Entry = Entry(conn: nat, peer: PeerId)

  datatype Routes = Routes(byPeer: map<PeerId, Entry>, byPrefix: map<RouteId, Entry>)

  const EMPTY: Routes := Routes(map[], map[])

  function Prefix(p: PeerId): RouteId {
    p[..16]
  }

  function Inserted(r: Routes, p: PeerId, c: nat): Routes {
    Routes(r.byPeer[p := Entry(c, p)], r.byPrefix[Prefix(p) := Entry(c, p)])
  }

  predicate IsCurrent(r: Routes, p: PeerId, c: nat) {
    p in r.byPeer && r.byPeer[p].conn == c
  }

  function Removed(r: Routes, p: PeerId, c: nat): Routes {
    if IsCurrent(r, p, c) then Routes(r.byPeer - {p}, r.byPrefix - {Prefix(p)}) else r
  }

  function Find<K, V>(m: map<K, V>, k: K): Option<V> {
    if k in m then Some(m[k]) else None
  }

  // ---------- what the two indexes keep ----------

  /** Entries sit under their own id, and the prefix index only repeats entries of the id index. */
  ghost predicate Agree(r: Routes) {
    && (forall p :: p in r.byPeer ==> r.byPeer[p].peer == p)
    && (forall k :: k in r.byPrefix ==>
          var e := r.byPrefix[k];
          Prefix(e.peer) == k && e.peer in r.byPeer && r.byPeer[e.peer] == e)
  }

  /** The prefix index holds an entry for every registered id. */
  ghost predicate Complete(r: Routes) {
    forall p :: p in r.byPeer ==> Prefix(p) in r.byPrefix && r.byPrefix[Prefix(p)] == r.byPeer[p]
  }

  /** Some other registered id shares the first 16 bytes of `p`. */
  ghost predicate PrefixTaken(r: Routes, p: PeerId) {
    exists q :: q in r.byPeer && q != p && Prefix(q) == Prefix(p)
  }

  lemma {:induction false} UpdatesKeepAgreement(r: Routes, p: PeerId, c: nat)
    ensures Agree(r) ==> Agree(Inserted(r, p, c))
    ensures Agree(r) ==> Agree(Removed(r, p, c))
  {
  }

  /** Registering keeps the prefix index complete exactly when no other registered id has the same prefix. */
  lemma {:induction false} InsertCompleteIff(r: Routes, p: PeerId, c: nat)
    requires Agree(r) && Complete(r)
    ensures Complete(Inserted(r, p, c)) <==> !PrefixTaken(r, p)
  {
    var r' := Inserted(r, p, c);
    if PrefixTaken(r, p) {
      var q :| q in r.byPeer && q != p && Prefix(q) == Prefix(p);
      assert q in r'.byPeer && r'.byPeer[q].peer == q;
      assert r'.byPrefix[Prefix(q)] == Entry(c, p);
    } else {
      forall q | q in r'.byPeer
        ensures Prefix(q) in r'.byPrefix && r'.byPrefix[Prefix(q)] == r'.byPeer[q]
      {
        if q != p {
          assert q in r.byPeer && Prefix(q) != Prefix(p);
        }
      }
    }
  }

  /** Removing a route never makes a complete prefix index incomplete. */
  lemma {:induction false} RemoveKeepsComplete(r: Routes, p: PeerId, c: nat)
    requires Agree(r) && Complete(r)
    ensures Complete(Removed(r, p, c))
  {
  }

  /** With a complete prefix index, routing by prefix is routing by full id: every registered id is found under its
      prefix, every prefix route leads to a registered id, and no two registered ids share a prefix. */
  lemma {:induction false} PrefixRoutingRefines(r: Routes)
    requires Agree(r) && Complete(r)
    ensures forall p: PeerId :: p in r.byPeer ==> Find(r.byPrefix, Prefix(p)) == Find(r.byPeer, p)
    ensures r.byPrefix.Keys == set p | p in r.byPeer :: Prefix(p)
    ensures forall p, q :: p in r.byPeer && q in r.byPeer && Prefix(p) == Prefix(q) ==> p == q
  {
    forall p, q | p in r.byPeer && q in r.byPeer && Prefix(p) == Prefix(q)
      ensures p == q
    {
      assert r.byPeer[p].peer == p && r.byPeer[q].peer == q;
    }
    forall k | k in r.byPrefix
      ensures exists p :: p in r.byPeer && Prefix(p) == k
    {
      assert r.byPrefix[k].peer in r.byPeer;
    }
  }

  /** Two ids with one prefix: the later registration takes over the prefix, and when it leaves, the earlier id is
      still registered but can no longer be reached by prefix. */
  lemma {:induction false} SharedPrefixLosesRoute(p: PeerId, q: PeerId, c: nat, d: nat)
    requires p != q && Prefix(p) == Prefix(q)
    ensures var r := Removed(Inserted(Inserted(EMPTY, p, c), q, d), q, d);
      p in r.byPeer && Prefix(p) !in r.byPrefix
  {
    var r := Inserted(Inserted(EMPTY, p, c), q, d);
    assert IsCurrent(r, q, d);
  }

  /** Registering routes the id, and its first 16 bytes, to the connection, whoever had them; all other ids and prefixes
      keep their entries. */
  lemma {:induction false} RegistrationTakesPrefix(r: Routes, p: PeerId, c: nat)
    ensures var t := Inserted(r, p, c);
      && Find(t.byPeer, p) == Some(Entry(c, p))
      && (forall q: PeerId :: q[..16] == p[..16] ==> Find(t.byPrefix, q[..16]) == Some(Entry(c, p)))
      && (forall q: PeerId :: q != p ==> Find(t.byPeer, q) == Find(r.byPeer, q))
      && (forall q: PeerId :: q[..16] != p[..16] ==> Find(t.byPrefix, q[..16]) == Find(r.byPrefix, q[..16]))
  {
  }

  /** Removing a route takes the prefix away from every id that shares it, whichever of them the prefix led to; all
      other ids and prefixes keep their entries. */
  lemma {:induction false} RemovalTakesPrefix(r: Routes, p: PeerId, c: nat)
    requires IsCurrent(r, p, c)
    ensures var t := Removed(r, p, c);
      && p !in t.byPeer && (forall q: PeerId :: Prefix(q) == Prefix(p) ==> Prefix(q) !in t.byPrefix)
      && (forall q: PeerId :: q != p ==> Find(t.byPeer, q) == Find(r.byPeer, q))
      && (forall q: PeerId :: Prefix(q) != Prefix(p) ==> Find(t.byPrefix, Prefix(q)) == Find(r.byPrefix, Prefix(q)))
  {
  }

  // ---------- the registry object ----------

  class RouteRegistryInner {
    var byPeerId: map<PeerId, Entry>
    var byPrefix: map<RouteId, Entry>

    ghost function View(): Routes
      reads this
    {
      Routes(byPeerId, byPrefix)
    }

    constructor ()
      ensures View() == EMPTY
    {
      byPeerId, byPrefix := map[], map[];
    }

    method Insert(peerId: PeerId, connectionId: nat) returns (previous: Option<Entry>)
      modifies this
      ensures View() == Inserted(old(View()), peerId, connectionId)
      ensures previous == Find(old(byPeerId), peerId)
      ensures old(Agree(View())) ==> Agree(View())
      ensures IsCurrent(View(), peerId, connectionId)
    {
      UpdatesKeepAgreement(View(), peerId, connectionId);
      var prefix := peerId[..16];
      var entry := Entry(connectionId, peerId);
      byPrefix := byPrefix[prefix := entry];
      previous := Find(byPeerId, peerId);
      byPeerId := byPeerId[peerId := entry];
    }

    method RemoveConnection(peerId: PeerId, connectionId: nat) returns (removed: bool)
      modifies this
      ensures View() == Removed(old(View()), peerId, connectionId)
      ensures removed <==> IsCurrent(old(View()), peerId, connectionId)
      ensures !removed ==> View() == old(View())
      ensures old(Agree(View())) ==> Agree(View())
    {
      UpdatesKeepAgreement(View(), peerId, connectionId);
      removed := peerId in byPeerId && byPeerId[peerId].conn == connectionId;
      if removed {
        byPeerId := byPeerId - {peerId};
        byPrefix := byPrefix - {peerId[..16]};
      }
    }

    method GetByPeerId(peerId: PeerId) returns (entry: Option<Entry>)
      ensures entry == Find(View().byPeer, peerId)
    {
      entry := if peerId in byPeerId then Some(byPeerId[peerId]) else None;
    }

    method GetByPrefix(prefix: RouteId) returns (entry: Option<Entry>)
      ensures entry == Find(View().byPrefix, prefix)
      ensures Agree(View()) && entry.Some? ==>
        Prefix(entry.value.peer) == prefix && Find(View().byPeer, entry.value.peer) == entry
    {
      entry := if prefix in byPrefix then Some(byPrefix[prefix]) else None;
    }
  }
}
