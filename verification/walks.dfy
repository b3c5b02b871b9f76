/**
 * Walks in the route graph: a start key and the sequence of adjacency
 * entries followed from it. A walk is what a path of the search stands for;
 * its weight is the sum of the weights of its entries.
 */
module Walks {
  import opened Models
  import opened RouteGraph

  /** The `i`-th key visited by the walk leaving `s` along `es`. */
  function VertexAt(s: VertexKey, es: seq<Edge>, i: nat): VertexKey
    requires i <= |es|
  {
    if i == 0 then s else es[i - 1].to
  }

  /** The key where the walk ends. */
  function Last(s: VertexKey, es: seq<Edge>): VertexKey
  {
    VertexAt(s, es, |es|)
  }

  /** Each entry of `es` belongs to the list of the key the walk has reached. */
  predicate IsWalk(adj: Adjacency, s: VertexKey, es: seq<Edge>)
  {
    s in adj &&
    forall i {:trigger VertexAt(s, es, i)} | 0 <= i < |es| :: VertexAt(s, es, i) in adj && es[i] in adj[VertexAt(s, es, i)]
  }

  predicate IsWalkTo(adj: Adjacency, s: VertexKey, t: VertexKey, es: seq<Edge>)
  {
    IsWalk(adj, s, es) && Last(s, es) == t
  }

  function Weight(es: seq<Edge>): real
  {
    if |es| == 0 then 0.0 else Weight(es[..|es| - 1]) + es[|es| - 1].weight
  }

  ghost predicate Reachable(adj: Adjacency, s: VertexKey, t: VertexKey)
  {
    exists es :: IsWalkTo(adj, s, t, es)
  }

  /** `es` leads from `s` to `t` and no walk from `s` to `t` weighs less. */
  ghost predicate IsShortestWalk(adj: Adjacency, s: VertexKey, t: VertexKey, es: seq<Edge>)
  {
    IsWalkTo(adj, s, t, es) && forall other | IsWalkTo(adj, s, t, other) :: Weight(es) <= Weight(other)
  }

  /** Every key the walk visits has a stored position. */
  predicate OnVertices(vs: map<VertexKey, Coord>, s: VertexKey, es: seq<Edge>)
  {
    forall i | 0 <= i <= |es| :: VertexAt(s, es, i) in vs
  }

  /** The stored positions of the keys the walk visits, from `s` on. */
  function WalkCoords(vs: map<VertexKey, Coord>, s: VertexKey, es: seq<Edge>): (r: seq<Coord>)
    requires OnVertices(vs, s, es)
    ensures |r| == |es| + 1
  {
    seq(|es| + 1, i requires 0 <= i <= |es| => vs[VertexAt(s, es, i)])
  }

  /** The walk that stays at `s` visits only the position of `s`. */
  lemma WalkCoordsOfEmpty(vs: map<VertexKey, Coord>, s: VertexKey)
    requires s in vs
    ensures OnVertices(vs, s, []) && WalkCoords(vs, s, []) == [vs[s]]
  {
    assert VertexAt(s, [], 0) == s;
  }

  lemma WalkOnVertices(adj: Adjacency, vs: map<VertexKey, Coord>, s: VertexKey, es: seq<Edge>)
    requires WellFormed(adj) && adj.Keys == vs.Keys && IsWalk(adj, s, es)
    ensures OnVertices(vs, s, es)
  {
    forall i | 0 < i <= |es|
      ensures VertexAt(s, es, i) in vs
    {
      assert es[i - 1] in adj[VertexAt(s, es, i - 1)];
    }
  }

  /** The positions of a walk from `s` to `t` begin with the position of `s` and end with the position of `t`. */
  lemma RoutePositions(adj: Adjacency, vs: map<VertexKey, Coord>, s: VertexKey, t: VertexKey, es: seq<Edge>)
    requires IsWalkTo(adj, s, t, es) && OnVertices(vs, s, es)
    ensures s in vs && WalkCoords(vs, s, es)[0] == vs[s]
    ensures t in vs && WalkCoords(vs, s, es)[|es|] == vs[t]
  {
    assert VertexAt(s, es, 0) in vs;
    assert VertexAt(s, es, |es|) in vs;
  }

  lemma WalkAppend(adj: Adjacency, s: VertexKey, es: seq<Edge>, e: Edge)
    requires IsWalk(adj, s, es) && Last(s, es) in adj && e in adj[Last(s, es)]
    ensures IsWalk(adj, s, es + [e]) && Last(s, es + [e]) == e.to
    ensures Weight(es + [e]) == Weight(es) + e.weight
  {
    var es' := es + [e];
    assert es'[..|es|] == es;
    forall i | 0 <= i < |es'|
      ensures VertexAt(s, es', i) in adj && es'[i] in adj[VertexAt(s, es', i)]
    {
      if i < |es| {
        assert VertexAt(s, es', i) == VertexAt(s, es, i);
      }
    }
  }

  lemma WalkPrefix(adj: Adjacency, s: VertexKey, es: seq<Edge>, k: nat)
    requires IsWalk(adj, s, es) && k <= |es|
    ensures IsWalk(adj, s, es[..k]) && Last(s, es[..k]) == VertexAt(s, es, k)
  {
    forall i | 0 <= i < k
      ensures VertexAt(s, es[..k], i) in adj && es[..k][i] in adj[VertexAt(s, es[..k], i)]
    {
      assert VertexAt(s, es[..k], i) == VertexAt(s, es, i);
    }
  }

  /** Every entry of a walk on a well-formed graph weighs at least 0. */
  lemma WalkWeightsNonneg(adj: Adjacency, s: VertexKey, es: seq<Edge>)
    requires WellFormed(adj) && IsWalk(adj, s, es)
    ensures forall i | 0 <= i < |es| :: es[i].weight >= 0.0
  {
    forall i | 0 <= i < |es|
      ensures es[i].weight >= 0.0
    {
      assert es[i] in adj[VertexAt(s, es, i)];
    }
  }

  /** With no negative entry, a sequence of entries weighs at least as much as each of its prefixes, and at least 0. */
  lemma {:induction false} WeightPrefix(es: seq<Edge>, k: nat)
    requires forall i | 0 <= i < |es| :: es[i].weight >= 0.0
    requires k <= |es|
    ensures 0.0 <= Weight(es[..k]) <= Weight(es)
    decreases |es|, k
  {
    if k < |es| {
      var n := |es| - 1;
      assert es[..n][..k] == es[..k];
      WeightPrefix(es[..n], k);
    } else if k > 0 {
      assert es[..k] == es;
      WeightPrefix(es, k - 1);
    }
  }

  /** On a well-formed graph a walk weighs at least 0, and at least as much as each of its prefixes. */
  lemma WalkWeightPrefix(adj: Adjacency, s: VertexKey, es: seq<Edge>, k: nat)
    requires WellFormed(adj) && IsWalk(adj, s, es) && k <= |es|
    ensures 0.0 <= Weight(es[..k]) <= Weight(es)
  {
    WalkWeightsNonneg(adj, s, es);
    WeightPrefix(es, k);
  }

  /** The walk visits no key twice. */
  predicate Simple(s: VertexKey, es: seq<Edge>)
  {
    forall i, j | 0 <= i < j <= |es| :: VertexAt(s, es, i) != VertexAt(s, es, j)
  }

  /** The keys the walk visits, the start included. */
  function Visited(s: VertexKey, es: seq<Edge>): set<VertexKey>
  {
    set i | 0 <= i <= |es| :: VertexAt(s, es, i)
  }

  /** A walk that visits no key twice visits one key more than it has entries. */
  lemma {:induction false} VisitedCount(s: VertexKey, es: seq<Edge>)
    requires Simple(s, es)
    ensures |Visited(s, es)| == |es| + 1
    decreases |es|
  {
    if |es| == 0 {
      assert VertexAt(s, es, 0) == s;
      assert Visited(s, es) == {s};
    } else {
      var n := |es|;
      var init := es[..n - 1];
      forall i | 0 <= i <= n - 1
        ensures VertexAt(s, init, i) == VertexAt(s, es, i)
      {
      }
      assert Simple(s, init);
      VisitedCount(s, init);
      assert Visited(s, es) == Visited(s, init) + {VertexAt(s, es, n)};
    }
  }

  /**
   * On a well-formed graph a walk that visits no key twice has fewer entries
   * than the graph has keys.
   */
  lemma SimpleWalkBound(adj: Adjacency, s: VertexKey, es: seq<Edge>)
    requires WellFormed(adj) && IsWalk(adj, s, es) && Simple(s, es)
    ensures |es| < |adj.Keys|
  {
    VisitedCount(s, es);
    forall i | 0 < i <= |es|
      ensures VertexAt(s, es, i) in adj
    {
      assert es[i - 1] in adj[VertexAt(s, es, i - 1)];
    }
    assert VertexAt(s, es, 0) in adj;
    assert Visited(s, es) <= adj.Keys;
    SubsetCard(Visited(s, es), adj.Keys);
  }

  lemma {:induction false} SubsetCard<T>(a: set<T>, b: set<T>)
    requires a <= b
    ensures |a| <= |b|
    decreases |a|
  {
    if a != {} {
      var x :| x in a;
      SubsetCard(a - {x}, b - {x});
    }
  }
}
