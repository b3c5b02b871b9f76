/**
 * The state of the shortest-path search and the invariant each of its steps
 * keeps. The search owns a map of tentative distances, a map of
 * predecessors and a priority queue of (key, priority) entries; the proof
 * adds two ghost components: the set of keys already taken from the queue
 * and relaxed ("settled"), and for each key with a tentative distance a walk
 * from the start that realises it.
 */
module SearchInvariant {
  import opened RouteGraph
  import opened Walks

  /** An entry of the priority queue: a key and the priority it was enqueued with. */
  datatype QueueEntry = QueueEntry(key: VertexKey, priority: real)

  /** `x` is an entry of `q` with the smallest priority. */
  predicate IsMin(q: multiset<QueueEntry>, x: QueueEntry)
  {
    x in q && forall y | y in q :: x.priority <= y.priority
  }

  /** A queue that is not empty has an entry of smallest priority. */
  lemma {:induction false} MinExists(q: multiset<QueueEntry>)
    requires |q| > 0
    ensures exists x :: IsMin(q, x)
    decreases |q|
  {
    var y :| y in q;
    var rest := q - multiset{y};
    if |rest| == 0 {
      assert q == multiset{y};
      assert IsMin(q, y);
    } else {
      MinExists(rest);
      var x :| IsMin(rest, x);
      if y.priority < x.priority {
        assert IsMin(q, y);
      } else {
        assert IsMin(q, x);
      }
    }
  }

  /** No walk from `s` to `u` weighs less than `d`. */
  ghost predicate Optimal(adj: Adjacency, s: VertexKey, u: VertexKey, d: real)
  {
    forall es | IsWalkTo(adj, s, u, es) :: d <= Weight(es)
  }

  /** Every key with a distance is a key of the graph, has a walk, and only such keys have predecessors. */
  ghost predicate KeysAgree(adj: Adjacency, D: map<VertexKey, real>, P: map<VertexKey, VertexKey>, W: map<VertexKey, seq<Edge>>)
  {
    D.Keys <= adj.Keys && P.Keys <= D.Keys && W.Keys == D.Keys
  }

  /** `v` is the start or has a predecessor. */
  predicate StartOrLinked(s: VertexKey, P: map<VertexKey, VertexKey>, v: VertexKey)
  {
    v == s || v in P
  }

  /**
   * The start has distance 0, the empty walk and no predecessor; every other
   * key with a distance has one. (The trigger keeps the solver from following
   * predecessor chains on its own.)
   */
  ghost predicate Rooted(s: VertexKey, D: map<VertexKey, real>, P: map<VertexKey, VertexKey>, W: map<VertexKey, seq<Edge>>)
  {
    s in D && D[s] == 0.0 && s !in P && s in W && W[s] == [] &&
    forall v {:trigger StartOrLinked(s, P, v)} | v in D :: StartOrLinked(s, P, v)
  }

  /** The walk recorded for `v` leads from the start to `v` and weighs exactly its distance. */
  ghost predicate WalkRealises(adj: Adjacency, s: VertexKey, D: map<VertexKey, real>, W: map<VertexKey, seq<Edge>>, v: VertexKey)
  {
    v in D && v in W && IsWalkTo(adj, s, v, W[v]) && Weight(W[v]) == D[v]
  }

  /** Every key with a distance has such a walk. */
  ghost predicate Realised(adj: Adjacency, s: VertexKey, D: map<VertexKey, real>, W: map<VertexKey, seq<Edge>>)
  {
    forall v {:trigger WalkRealises(adj, s, D, W, v)} | v in D :: WalkRealises(adj, s, D, W, v)
  }

  /** The walk of a key extends the walk of its predecessor by one entry. */
  ghost predicate Linked(P: map<VertexKey, VertexKey>, W: map<VertexKey, seq<Edge>>)
  {
    forall v {:trigger P[v]} | v in P :: P[v] in W && v in W && |W[v]| > 0 && W[P[v]] == W[v][..|W[v]| - 1]
  }

  /** The distance and predecessor maps and the ghost walks agree. */
  ghost predicate Chains(adj: Adjacency, s: VertexKey, D: map<VertexKey, real>, P: map<VertexKey, VertexKey>, W: map<VertexKey, seq<Edge>>)
  {
    KeysAgree(adj, D, P, W) && Rooted(s, D, P, W) && Realised(adj, s, D, W) && Linked(P, W)
  }

  /** Settled keys have distances, and those distances are optimal. */
  ghost predicate SettledOptimal(adj: Adjacency, s: VertexKey, D: map<VertexKey, real>, S: set<VertexKey>)
  {
    S <= D.Keys && forall u {:trigger Optimal(adj, s, u, D[u])} | u in S :: Optimal(adj, s, u, D[u])
  }

  /** Every unsettled key with a distance is queued with that distance as priority. */
  ghost predicate Covered(D: map<VertexKey, real>, Q: multiset<QueueEntry>, S: set<VertexKey>)
  {
    forall v | v in D && v !in S :: QueueEntry(v, D[v]) in Q
  }

  /** No queued priority is below the distance of its key. */
  ghost predicate Bounded(D: map<VertexKey, real>, Q: multiset<QueueEntry>)
  {
    forall q | q in Q :: q.key in D && D[q.key] <= q.priority
  }

  /** Only settled keys are predecessors. */
  ghost predicate PredecessorsSettled(P: map<VertexKey, VertexKey>, S: set<VertexKey>)
  {
    forall v | v in P :: P[v] in S
  }

  /** Everything the search keeps except the relaxation of settled keys; the target is never settled. */
  ghost predicate Core(adj: Adjacency, s: VertexKey, t: VertexKey, D: map<VertexKey, real>, P: map<VertexKey, VertexKey>,
                       Q: multiset<QueueEntry>, S: set<VertexKey>, W: map<VertexKey, seq<Edge>>)
  {
    WellFormed(adj) && Chains(adj, s, D, P, W) && SettledOptimal(adj, s, D, S) &&
    Covered(D, Q, S) && Bounded(D, Q) && PredecessorsSettled(P, S) && t !in S
  }

  /** Every entry of `edges`, taken from key `u`, leads to a key whose distance it cannot improve. */
  ghost predicate Relaxed(D: map<VertexKey, real>, u: VertexKey, edges: seq<Edge>)
    requires u in D
  {
    forall e | e in edges :: e.to in D && D[e.to] <= D[u] + e.weight
  }

  /** Every key of `X` has had all its entries relaxed. */
  ghost predicate AllRelaxed(adj: Adjacency, D: map<VertexKey, real>, X: set<VertexKey>)
  {
    forall u {:trigger Relaxed(D, u, adj[u])} | u in X && u in adj && u in D :: Relaxed(D, u, adj[u])
  }

  /** The invariant of the outer loop. */
  ghost predicate Inv(adj: Adjacency, s: VertexKey, t: VertexKey, D: map<VertexKey, real>, P: map<VertexKey, VertexKey>,
                      Q: multiset<QueueEntry>, S: set<VertexKey>, W: map<VertexKey, seq<Edge>>)
  {
    Core(adj, s, t, D, P, Q, S, W) && AllRelaxed(adj, D, S)
  }

  /** The invariant of the inner loop: key `cur` is settled and its first `j` entries are relaxed. */
  ghost predicate PartialInv(adj: Adjacency, s: VertexKey, t: VertexKey, D: map<VertexKey, real>, P: map<VertexKey, VertexKey>,
                             Q: multiset<QueueEntry>, S: set<VertexKey>, W: map<VertexKey, seq<Edge>>, cur: VertexKey, j: nat)
  {
    Core(adj, s, t, D, P, Q, S, W) && cur in S && cur in adj && j <= |adj[cur]| &&
    AllRelaxed(adj, D, S - {cur}) && Relaxed(D, cur, adj[cur][..j])
  }

  /** The state before the first iteration. */
  lemma InitialInv(adj: Adjacency, s: VertexKey, t: VertexKey)
    requires WellFormed(adj) && s in adj
    ensures Inv(adj, s, t, map[s := 0.0], map[], multiset{QueueEntry(s, 0.0)}, {}, map[s := []])
  {
    assert IsWalkTo(adj, s, s, []);
  }

  // ---------------------------------------------------------------------------
  // Why the smallest queued entry is final

  /**
   * The frontier argument: a walk from the start that ends at an unsettled
   * key passes a queued entry whose priority is at most the walk's weight.
   */
  lemma {:induction false} Frontier(adj: Adjacency, s: VertexKey, D: map<VertexKey, real>, Q: multiset<QueueEntry>,
                                    S: set<VertexKey>, es: seq<Edge>)
    requires WellFormed(adj) && s in D && D[s] == 0.0
    requires SettledOptimal(adj, s, D, S) && Covered(D, Q, S) && AllRelaxed(adj, D, S)
    requires IsWalk(adj, s, es) && Last(s, es) !in S
    ensures exists q :: q in Q && q.priority <= Weight(es)
    decreases |es|
  {
    if |es| == 0 {
      assert QueueEntry(s, D[s]) in Q;
    } else {
      var n := |es| - 1;
      var u := VertexAt(s, es, n);
      WalkPrefix(adj, s, es, n);
      assert u in adj && es[n] in adj[u];
      assert Weight(es) == Weight(es[..n]) + es[n].weight;
      if u !in S {
        Frontier(adj, s, D, Q, S, es[..n]);
      } else {
        var v := es[n].to;
        assert Relaxed(D, u, adj[u]);
        assert v in D && D[v] <= D[u] + es[n].weight;
        assert IsWalkTo(adj, s, u, es[..n]);
        assert Optimal(adj, s, u, D[u]);
        assert v == Last(s, es);
        assert QueueEntry(v, D[v]) in Q;
      }
    }
  }

  /** The entry of smallest priority carries the key's optimal distance. */
  lemma ExtractedIsOptimal(adj: Adjacency, s: VertexKey, t: VertexKey, D: map<VertexKey, real>, P: map<VertexKey, VertexKey>,
                           Q: multiset<QueueEntry>, S: set<VertexKey>, W: map<VertexKey, seq<Edge>>, x: QueueEntry)
    requires Inv(adj, s, t, D, P, Q, S, W) && IsMin(Q, x)
    ensures x.key in D && Optimal(adj, s, x.key, D[x.key])
  {
    forall es | IsWalkTo(adj, s, x.key, es)
      ensures D[x.key] <= Weight(es)
    {
      if x.key !in S {
        Frontier(adj, s, D, Q, S, es);
      } else {
        assert Optimal(adj, s, x.key, D[x.key]);
      }
    }
  }

  /** When the queue runs empty before the target came out of it, the target has no distance and cannot be reached. */
  lemma Exhausted(adj: Adjacency, s: VertexKey, t: VertexKey, D: map<VertexKey, real>, P: map<VertexKey, VertexKey>,
                  S: set<VertexKey>, W: map<VertexKey, seq<Edge>>)
    requires Inv(adj, s, t, D, P, multiset{}, S, W)
    ensures t !in D && s != t && !Reachable(adj, s, t)
  {
    if es :| IsWalkTo(adj, s, t, es) {
      Frontier(adj, s, D, multiset{}, S, es);
    }
  }

  // ---------------------------------------------------------------------------
  // Settling

  /** Taking the entry of smallest priority for a key other than the target and settling its key. */
  lemma Settle(adj: Adjacency, s: VertexKey, t: VertexKey, D: map<VertexKey, real>, P: map<VertexKey, VertexKey>,
               Q: multiset<QueueEntry>, S: set<VertexKey>, W: map<VertexKey, seq<Edge>>, x: QueueEntry)
    requires Inv(adj, s, t, D, P, Q, S, W) && IsMin(Q, x) && x.key != t
    ensures x.key in D && x.key in adj
    ensures PartialInv(adj, s, t, D, P, Q - multiset{x}, S + {x.key}, W, x.key, 0)
    ensures x.key in S ==> Relaxed(D, x.key, adj[x.key])
  {
    ExtractedIsOptimal(adj, s, t, D, P, Q, S, W, x);
    var Q', S' := Q - multiset{x}, S + {x.key};
    assert SettledOptimal(adj, s, D, S');
    forall v | v in D && v !in S'
      ensures QueueEntry(v, D[v]) in Q'
    {
      assert QueueEntry(v, D[v]) in Q;
    }
    assert Bounded(D, Q');
    assert AllRelaxed(adj, D, S' - {x.key}) by {
      assert S' - {x.key} <= S;
    }
  }

  /** All entries of the settled key relaxed: the outer invariant holds again. */
  lemma FinishRelaxing(adj: Adjacency, s: VertexKey, t: VertexKey, D: map<VertexKey, real>, P: map<VertexKey, VertexKey>,
                       Q: multiset<QueueEntry>, S: set<VertexKey>, W: map<VertexKey, seq<Edge>>, cur: VertexKey)
    requires cur in adj && PartialInv(adj, s, t, D, P, Q, S, W, cur, |adj[cur]|)
    ensures Inv(adj, s, t, D, P, Q, S, W)
  {
    assert adj[cur][..|adj[cur]|] == adj[cur];
  }

  // ---------------------------------------------------------------------------
  // Relaxing one entry

  lemma RelaxedExtend(D: map<VertexKey, real>, u: VertexKey, edges: seq<Edge>, e: Edge)
    requires u in D && Relaxed(D, u, edges) && e.to in D && D[e.to] <= D[u] + e.weight
    ensures Relaxed(D, u, edges + [e])
  {
  }

  /** Lowering the distance of a key other than `u` keeps the entries of `u` relaxed. */
  lemma RelaxedAfterDecrease(D: map<VertexKey, real>, u: VertexKey, edges: seq<Edge>, v: VertexKey, alt: real)
    requires u in D && u != v && Relaxed(D, u, edges) && (v in D ==> alt <= D[v])
    ensures Relaxed(D[v := alt], u, edges)
  {
  }

  lemma AllRelaxedAfterDecrease(adj: Adjacency, D: map<VertexKey, real>, X: set<VertexKey>, v: VertexKey, alt: real)
    requires AllRelaxed(adj, D, X) && v !in X && (v in D ==> alt <= D[v])
    ensures AllRelaxed(adj, D[v := alt], X)
  {
    forall u | u in X && u in adj && u in D[v := alt]
      ensures Relaxed(D[v := alt], u, adj[u])
    {
      RelaxedAfterDecrease(D, u, adj[u], v, alt);
    }
  }

  /** An entry that does not improve its target's distance leaves everything as it was. */
  lemma RelaxSkip(adj: Adjacency, s: VertexKey, t: VertexKey, D: map<VertexKey, real>, P: map<VertexKey, VertexKey>,
                  Q: multiset<QueueEntry>, S: set<VertexKey>, W: map<VertexKey, seq<Edge>>, cur: VertexKey, j: nat)
    requires PartialInv(adj, s, t, D, P, Q, S, W, cur, j) && j < |adj[cur]|
    requires adj[cur][j].to in D && D[adj[cur][j].to] <= D[cur] + adj[cur][j].weight
    ensures PartialInv(adj, s, t, D, P, Q, S, W, cur, j + 1)
  {
    assert adj[cur][..j + 1] == adj[cur][..j] + [adj[cur][j]];
    RelaxedExtend(D, cur, adj[cur][..j], adj[cur][j]);
  }

  lemma RealisedExtend(adj: Adjacency, s: VertexKey, D: map<VertexKey, real>, W: map<VertexKey, seq<Edge>>, cur: VertexKey, e: Edge)
    requires Realised(adj, s, D, W) && cur in D && cur in W && cur in adj && e in adj[cur]
    ensures Realised(adj, s, D[e.to := D[cur] + e.weight], W[e.to := W[cur] + [e]])
  {
    var D', W' := D[e.to := D[cur] + e.weight], W[e.to := W[cur] + [e]];
    assert WalkRealises(adj, s, D, W, cur);
    WalkAppend(adj, s, W[cur], e);
    forall v | v in D'
      ensures WalkRealises(adj, s, D', W', v)
    {
      if v != e.to {
        assert WalkRealises(adj, s, D, W, v);
      }
    }
  }

  lemma LinkedExtend(P: map<VertexKey, VertexKey>, W: map<VertexKey, seq<Edge>>, cur: VertexKey, e: Edge)
    requires Linked(P, W) && cur in W && e.to != cur
    requires forall x | x in P :: P[x] != e.to
    ensures Linked(P[e.to := cur], W[e.to := W[cur] + [e]])
  {
    var v := e.to;
    var P', W' := P[v := cur], W[v := W[cur] + [e]];
    forall u | u in P'
      ensures P'[u] in W' && u in W' && |W'[u]| > 0 && W'[P'[u]] == W'[u][..|W'[u]| - 1]
    {
      if u == v {
        assert W'[u][..|W'[u]| - 1] == W[cur];
      } else {
        assert P[u] != v;
      }
    }
  }

  lemma RootedExtend(s: VertexKey, D: map<VertexKey, real>, P: map<VertexKey, VertexKey>, W: map<VertexKey, seq<Edge>>,
                     cur: VertexKey, e: Edge)
    requires Rooted(s, D, P, W) && cur in D && cur in W && e.to != s
    ensures Rooted(s, D[e.to := D[cur] + e.weight], P[e.to := cur], W[e.to := W[cur] + [e]])
  {
    var D', P' := D[e.to := D[cur] + e.weight], P[e.to := cur];
    forall v | v in D'
      ensures StartOrLinked(s, P', v)
    {
      if v != e.to {
        assert StartOrLinked(s, P, v);
      }
    }
  }

  /** Recording a new distance, predecessor and walk for `e.to`, reached from `cur`, keeps the chains. */
  lemma ChainsExtend(adj: Adjacency, s: VertexKey, D: map<VertexKey, real>, P: map<VertexKey, VertexKey>,
                     W: map<VertexKey, seq<Edge>>, cur: VertexKey, e: Edge)
    requires WellFormed(adj) && Chains(adj, s, D, P, W)
    requires cur in D && e in adj[cur] && e.to != s && e.to != cur
    requires forall x | x in P :: P[x] != e.to
    ensures Chains(adj, s, D[e.to := D[cur] + e.weight], P[e.to := cur], W[e.to := W[cur] + [e]])
  {
    RealisedExtend(adj, s, D, W, cur, e);
    LinkedExtend(P, W, cur, e);
    RootedExtend(s, D, P, W, cur, e);
  }

  /**
   * A key whose distance an entry of `cur` improves, where `wc` is a walk to
   * `cur` weighing its distance, is neither settled, nor the start, nor `cur`.
   */
  lemma ImprovedIsUnsettled(adj: Adjacency, s: VertexKey, D: map<VertexKey, real>, S: set<VertexKey>,
                            cur: VertexKey, wc: seq<Edge>, e: Edge)
    requires WellFormed(adj) && s in D && D[s] == 0.0 && SettledOptimal(adj, s, D, S)
    requires cur in D && cur in adj && IsWalkTo(adj, s, cur, wc) && Weight(wc) == D[cur] && e in adj[cur]
    requires e.to !in D || D[cur] + e.weight < D[e.to]
    ensures e.to !in S && e.to != s && e.to != cur
  {
    WalkAppend(adj, s, wc, e);
    WeightNonnegOfWalk(adj, s, wc);
    if e.to in S {
      assert Optimal(adj, s, e.to, D[e.to]);
      assert IsWalkTo(adj, s, e.to, wc + [e]);
    }
  }

  lemma SettledOptimalExtend(adj: Adjacency, s: VertexKey, D: map<VertexKey, real>, S: set<VertexKey>, v: VertexKey, alt: real)
    requires SettledOptimal(adj, s, D, S) && v !in S
    ensures SettledOptimal(adj, s, D[v := alt], S)
  {
    forall u | u in S
      ensures Optimal(adj, s, u, D[v := alt][u])
    {
      assert D[v := alt][u] == D[u];
    }
  }

  lemma CoveredExtend(D: map<VertexKey, real>, Q: multiset<QueueEntry>, S: set<VertexKey>, v: VertexKey, alt: real)
    requires Covered(D, Q, S)
    ensures Covered(D[v := alt], Q + multiset{QueueEntry(v, alt)}, S)
  {
  }

  lemma BoundedExtend(D: map<VertexKey, real>, Q: multiset<QueueEntry>, v: VertexKey, alt: real)
    requires Bounded(D, Q) && (v in D ==> alt < D[v])
    ensures Bounded(D[v := alt], Q + multiset{QueueEntry(v, alt)})
  {
  }

  /** Recording the improved distance of an unsettled key keeps everything but the relaxation facts. */
  lemma CoreExtend(adj: Adjacency, s: VertexKey, t: VertexKey, D: map<VertexKey, real>, P: map<VertexKey, VertexKey>,
                   Q: multiset<QueueEntry>, S: set<VertexKey>, W: map<VertexKey, seq<Edge>>, cur: VertexKey, e: Edge)
    requires Core(adj, s, t, D, P, Q, S, W) && cur in S && e in adj[cur]
    requires e.to !in S && e.to != s && e.to != cur
    requires e.to !in D || D[cur] + e.weight < D[e.to]
    ensures Core(adj, s, t, D[e.to := D[cur] + e.weight], P[e.to := cur], Q + multiset{QueueEntry(e.to, D[cur] + e.weight)},
                 S, W[e.to := W[cur] + [e]])
  {
    var v, alt := e.to, D[cur] + e.weight;
    ChainsExtend(adj, s, D, P, W, cur, e);
    SettledOptimalExtend(adj, s, D, S, v, alt);
    CoveredExtend(D, Q, S, v, alt);
    BoundedExtend(D, Q, v, alt);
  }

  /**
   * An entry that reaches a key without a distance, or improves it: the key
   * is unsettled and is not the start, and recording the new distance, the
   * predecessor, the queue entry and the extended walk keeps the invariant.
   */
  lemma RelaxUpdate(adj: Adjacency, s: VertexKey, t: VertexKey, D: map<VertexKey, real>, P: map<VertexKey, VertexKey>,
                    Q: multiset<QueueEntry>, S: set<VertexKey>, W: map<VertexKey, seq<Edge>>, cur: VertexKey, j: nat,
                    e: Edge, alt: real)
    requires PartialInv(adj, s, t, D, P, Q, S, W, cur, j) && j < |adj[cur]|
    requires e == adj[cur][j] && alt == D[cur] + e.weight
    requires e.to !in D || alt < D[e.to]
    ensures e.to !in S && e.to != s && e.to != cur
    ensures PartialInv(adj, s, t, D[e.to := alt], P[e.to := cur], Q + multiset{QueueEntry(e.to, alt)}, S, W[e.to := W[cur] + [e]], cur, j + 1)
  {
    var v := e.to;
    assert e in adj[cur];
    assert WalkRealises(adj, s, D, W, cur);
    ImprovedIsUnsettled(adj, s, D, S, cur, W[cur], e);
    CoreExtend(adj, s, t, D, P, Q, S, W, cur, e);
    AllRelaxedAfterDecrease(adj, D, S - {cur}, v, alt);
    RelaxedAfterDecrease(D, cur, adj[cur][..j], v, alt);
    assert adj[cur][..j + 1] == adj[cur][..j] + [e];
    RelaxedExtend(D[v := alt], cur, adj[cur][..j], e);
  }

  lemma WeightNonnegOfWalk(adj: Adjacency, s: VertexKey, es: seq<Edge>)
    requires WellFormed(adj) && IsWalk(adj, s, es)
    ensures Weight(es) >= 0.0
  {
    WalkWeightPrefix(adj, s, es, 0);
  }

  // ---------------------------------------------------------------------------
  // After the loop

  /**
   * What the search has established when its loop ends: the chains are intact,
   * a target with a distance carries a shortest walk, and a target without
   * one differs from the start and cannot be reached.
   */
  ghost predicate Outcome(adj: Adjacency, s: VertexKey, t: VertexKey, D: map<VertexKey, real>, P: map<VertexKey, VertexKey>,
                          W: map<VertexKey, seq<Edge>>)
  {
    WellFormed(adj) && Chains(adj, s, D, P, W) &&
    (t in D ==> IsShortestWalk(adj, s, t, W[t])) &&
    (t !in D ==> s != t && !Reachable(adj, s, t))
  }

  /** The target came out of the queue first: its walk is a shortest one. */
  lemma ReachedOutcome(adj: Adjacency, s: VertexKey, t: VertexKey, D: map<VertexKey, real>, P: map<VertexKey, VertexKey>,
                       Q: multiset<QueueEntry>, S: set<VertexKey>, W: map<VertexKey, seq<Edge>>, x: QueueEntry)
    requires Inv(adj, s, t, D, P, Q, S, W) && IsMin(Q, x) && x.key == t
    ensures Outcome(adj, s, t, D, P, W)
  {
    ExtractedIsOptimal(adj, s, t, D, P, Q, S, W, x);
    assert WalkRealises(adj, s, D, W, t);
  }

  /** The queue ran empty: the target cannot be reached. */
  lemma ExhaustedOutcome(adj: Adjacency, s: VertexKey, t: VertexKey, D: map<VertexKey, real>, P: map<VertexKey, VertexKey>,
                         S: set<VertexKey>, W: map<VertexKey, seq<Edge>>)
    requires Inv(adj, s, t, D, P, multiset{}, S, W)
    ensures Outcome(adj, s, t, D, P, W)
  {
    Exhausted(adj, s, t, D, P, S, W);
  }

  /** Following a predecessor drops the last entry of the walk. */
  lemma PredecessorStep(adj: Adjacency, s: VertexKey, D: map<VertexKey, real>, P: map<VertexKey, VertexKey>,
                        W: map<VertexKey, seq<Edge>>, v: VertexKey)
    requires Chains(adj, s, D, P, W) && v in P
    ensures v in D && P[v] in D && |W[v]| > 0 && W[P[v]] == W[v][..|W[v]| - 1]
  {
  }

  /** A key with a distance and no predecessor is the start, whose walk is empty. */
  lemma NoPredecessor(adj: Adjacency, s: VertexKey, D: map<VertexKey, real>, P: map<VertexKey, VertexKey>,
                      W: map<VertexKey, seq<Edge>>, v: VertexKey)
    requires Chains(adj, s, D, P, W) && v in D && v !in P
    ensures v == s && W[v] == []
  {
    assert StartOrLinked(s, P, v);
  }

  /** A key with a distance is the start or has a predecessor, and a key with a predecessor has a distance. */
  lemma StartOrLinkedIfReached(adj: Adjacency, s: VertexKey, D: map<VertexKey, real>, P: map<VertexKey, VertexKey>,
                               W: map<VertexKey, seq<Edge>>, v: VertexKey)
    requires Chains(adj, s, D, P, W)
    ensures v in D <==> v == s || v in P
  {
    if v in D {
      assert StartOrLinked(s, P, v);
    }
  }

  /** A key whose walk is the first `m` entries of `es` is the `m`-th key visited by `es`. */
  lemma ChainVertex(adj: Adjacency, s: VertexKey, D: map<VertexKey, real>, P: map<VertexKey, VertexKey>,
                    W: map<VertexKey, seq<Edge>>, v: VertexKey, es: seq<Edge>, m: nat)
    requires Chains(adj, s, D, P, W) && v in D && m <= |es| && W[v] == es[..m]
    ensures v == VertexAt(s, es, m)
  {
    assert WalkRealises(adj, s, D, W, v);
    assert v == Last(s, es[..m]) == VertexAt(s, es[..m], m);
  }

  /**
   * Every key the recorded walk of `v` visits has a distance, and its own
   * recorded walk is the prefix up to that visit: predecessor chains follow
   * the walks back to the start.
   */
  lemma {:induction false} ChainAt(adj: Adjacency, s: VertexKey, D: map<VertexKey, real>, P: map<VertexKey, VertexKey>,
                                   W: map<VertexKey, seq<Edge>>, v: VertexKey, m: nat)
    requires Chains(adj, s, D, P, W) && v in D && m <= |W[v]|
    ensures VertexAt(s, W[v], m) in D && W[VertexAt(s, W[v], m)] == W[v][..m]
    decreases |W[v]|
  {
    var es := W[v];
    assert WalkRealises(adj, s, D, W, v);
    if m == |es| {
      assert es[..m] == es;
    } else {
      StartOrLinkedIfReached(adj, s, D, P, W, v);
      if v !in P {
        NoPredecessor(adj, s, D, P, W, v);
        assert false;
      }
      PredecessorStep(adj, s, D, P, W, v);
      var u := P[v];
      ChainAt(adj, s, D, P, W, u, m);
      assert W[u][..m] == es[..m];
      assert VertexAt(s, W[u], m) == VertexAt(s, es, m);
    }
  }

  /** The recorded walk of a key with a distance visits no key twice. */
  lemma DistinctKeys(adj: Adjacency, s: VertexKey, D: map<VertexKey, real>, P: map<VertexKey, VertexKey>,
                     W: map<VertexKey, seq<Edge>>, v: VertexKey)
    requires Chains(adj, s, D, P, W) && v in D
    ensures v in W && Simple(s, W[v])
  {
    var es := W[v];
    forall i, j | 0 <= i < j <= |es|
      ensures VertexAt(s, es, i) != VertexAt(s, es, j)
    {
      ChainAt(adj, s, D, P, W, v, i);
      ChainAt(adj, s, D, P, W, v, j);
    }
  }

  /** Settling a key of the graph that was not settled shrinks the set of keys still to settle. */
  lemma SettlingShrinks(keys: set<VertexKey>, S: set<VertexKey>, x: VertexKey)
    requires x in keys && x !in S
    ensures |keys - (S + {x})| < |keys - S|
  {
    assert keys - S == (keys - (S + {x})) + {x};
  }
}
