/** A finite graph whose nodes have at most one edge each, as a map from a node
    to the node it points at: what the waits of the runs are. */
module WaitGraph {
  import opened Prelude

  type Graph = map<nat, nat>

  /** The nodes of `p`, in order, follow the edges of `g`. */
  ghost predicate Path(g: Graph, p: seq<nat>) {
    && |p| > 0
    && forall i | 0 <= i < |p| - 1 :: p[i] in g && g[p[i]] == p[i + 1]
  }

  ghost predicate PathBetween(g: Graph, p: seq<nat>, a: nat, b: nat) {
    Path(g, p) && p[0] == a && p[|p| - 1] == b
  }

  /** `b` is `a`, or lies somewhere after it. */
  ghost predicate Reaches(g: Graph, a: nat, b: nat) {
    exists p :: PathBetween(g, p, a, b)
  }

  /** No node reaches itself over one edge or more. */
  ghost predicate Acyclic(g: Graph) {
    forall p | Path(g, p) && |p| >= 2 :: p[0] != p[|p| - 1]
  }

  lemma PathSlice(g: Graph, p: seq<nat>, i: nat, j: nat)
    requires Path(g, p) && i < j <= |p|
    ensures Path(g, p[i..j])
  {
  }

  lemma PathDistinct(g: Graph, p: seq<nat>)
    requires Acyclic(g) && Path(g, p)
    ensures forall i, j | 0 <= i < j < |p| :: p[i] != p[j]
  {
    forall i, j | 0 <= i < j < |p|
      ensures p[i] != p[j]
    {
      PathSlice(g, p, i, j + 1);
      var q := p[i..j + 1];
      assert q[0] == p[i] && q[|q| - 1] == p[j];
    }
  }

  /** A path of an acyclic graph has no more edges than the graph. */
  lemma PathShort(g: Graph, p: seq<nat>)
    requires Acyclic(g) && Path(g, p)
    ensures |p| - 1 <= |g|
  {
    PathDistinct(g, p);
    DistinctWithin(p[..|p| - 1], g.Keys);
  }

  /** A path that ends at `me` in `g` with the edge from `me` redrawn reaches
      `me` in `g` as well: by its first arrival. */
  lemma {:induction false} FirstArrival(g: Graph, me: nat, x: nat, p: seq<nat>)
    requires Path(g[me := x], p) && p[|p| - 1] == me
    ensures Reaches(g, p[0], me)
    decreases |p|
  {
    if p[0] == me {
      assert PathBetween(g, [me], me, me);
    } else {
      assert p[0] in g && g[p[0]] == p[1];
      PathSlice(g[me := x], p, 1, |p|);
      FirstArrival(g, me, x, p[1..]);
      var q :| PathBetween(g, q, p[1], me);
      assert PathBetween(g, [p[0]] + q, p[0], me);
    }
  }

  /** An edge to a node that does not reach its origin closes no ring. */
  lemma AddEdge(g: Graph, me: nat, x: nat)
    requires Acyclic(g) && !Reaches(g, x, me)
    ensures Acyclic(g[me := x])
  {
    var h := g[me := x];
    forall p | Path(h, p) && |p| >= 2
      ensures p[0] != p[|p| - 1]
    {
      if p[0] == p[|p| - 1] {
        if exists i :: 0 <= i < |p| - 1 && p[i] == me {
          var i :| 0 <= i < |p| - 1 && p[i] == me;
          // Turn the ring so that it begins after its edge out of `me`.
          var q := p[i + 1..] + p[1..i + 1];
          forall k | 0 <= k < |q| - 1
            ensures q[k] in h && h[q[k]] == q[k + 1]
          {
            var m := |p| - i - 1;
            if k < m - 1 {
              assert q[k] == p[i + 1 + k] && q[k + 1] == p[i + 2 + k];
            } else if k == m - 1 {
              assert q[k] == p[|p| - 1] && q[k + 1] == p[1];
            } else {
              assert q[k] == p[1 + k - m] && q[k + 1] == p[2 + k - m];
            }
          }
          assert q[0] == x && q[|q| - 1] == me;
          FirstArrival(g, me, x, q);
        } else {
          forall i | 0 <= i < |p| - 1
            ensures p[i] in g && g[p[i]] == p[i + 1]
          {
            assert p[i] != me && p[i] in h && h[p[i]] == p[i + 1];
          }
          assert Path(g, p);
        }
      }
    }
  }

  /** Edges that go, and edges redrawn to nodes with no edge of their own,
      close no ring. */
  lemma Redraw(g: Graph, h: Graph)
    requires Acyclic(g)
    requires forall r | r in h && h[r] in h :: r in g && g[r] == h[r]
    ensures Acyclic(h)
  {
    forall p | Path(h, p) && |p| >= 2
      ensures p[0] != p[|p| - 1]
    {
      if p[0] == p[|p| - 1] {
        forall i | 0 <= i < |p| - 1
          ensures p[i] in g && g[p[i]] == p[i + 1]
        {
          assert p[i + 1] in h;
        }
        assert Path(g, p);
      }
    }
  }

  /** Following the edges from any node ends, within as many hops as there are
      edges, at a node with none. */
  lemma {:induction false} SinkFrom(g: Graph, p: seq<nat>) returns (q: seq<nat>)
    requires Acyclic(g) && Path(g, p)
    ensures Path(g, q) && q[0] == p[0] && q[|q| - 1] !in g && |q| - 1 <= |g|
    decreases |g| + 1 - |p|
  {
    PathShort(g, p);
    if p[|p| - 1] !in g {
      q := p;
    } else {
      var longer := p + [g[p[|p| - 1]]];
      assert Path(g, longer);
      PathShort(g, longer);
      q := SinkFrom(g, longer);
    }
  }
}
