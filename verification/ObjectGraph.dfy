/**
  Git objects as a finite graph: every object names the objects it links to
  (a commit its parents and tree, a tree its entries).
*/
module ObjectGraph {

  datatype ObjectId = ObjectId(name: nat)

  type Graph = map<ObjectId, set<ObjectId>>

  predicate Closed(g: Graph, s: set<ObjectId>) {
    forall x | x in s && x in g :: g[x] <= s
  }

  function Neighbours(g: Graph, s: set<ObjectId>): set<ObjectId> {
    set x, y | x in s && x in g && y in g[x] :: y
  }

  function Linked(g: Graph): set<ObjectId> {
    set x, y | x in g && y in g[x] :: y
  }

  /** Everything reachable from s, computed layer by layer. */
  function Closure(g: Graph, s: set<ObjectId>): (r: set<ObjectId>)
    ensures s <= r
    ensures Closed(g, r)
    decreases Linked(g) - s
  {
    var next := Neighbours(g, s);
    if next <= s then s
    else
      assert Linked(g) - (s + next) < Linked(g) - s by {
        var y :| y in next && y !in s;
        assert y in Linked(g) - s && y !in Linked(g) - (s + next);
      }
      Closure(g, s + next)
  }

  /** It is the least closed set around s. */
  lemma {:induction false} ClosureIsLeast(g: Graph, s: set<ObjectId>, t: set<ObjectId>)
    requires s <= t && Closed(g, t)
    ensures Closure(g, s) <= t
    decreases Linked(g) - s
  {
    var next := Neighbours(g, s);
    if !(next <= s) {
      var y :| y in next && y !in s;
      assert y in Linked(g) - s && y !in Linked(g) - (s + next);
      ClosureIsLeast(g, s + next, t);
    }
  }

  lemma ClosureOfMember(g: Graph, x: ObjectId, t: set<ObjectId>)
    requires Closed(g, t)
    ensures x in t <==> Closure(g, {x}) <= t
  {
    if x in t {
      ClosureIsLeast(g, {x}, t);
    }
  }

  /** A nonempty chain of links. */
  predicate Path(g: Graph, p: seq<ObjectId>) {
    |p| > 0 && forall i | 0 <= i < |p| - 1 :: p[i] in g && p[i + 1] in g[p[i]]
  }

  /** Membership in the closure is reachability along a chain of links. */
  lemma ClosureIsReachability(g: Graph, s: set<ObjectId>, x: ObjectId)
    ensures x in Closure(g, s) <==> exists p :: Path(g, p) && p[0] in s && p[|p| - 1] == x
  {
    if x in Closure(g, s) {
      PathToMember(g, s, x);
    }
    if p :| Path(g, p) && p[0] in s && p[|p| - 1] == x {
      PathStaysInside(g, p, Closure(g, s), |p| - 1);
    }
  }

  lemma {:induction false} PathStaysInside(g: Graph, p: seq<ObjectId>, t: set<ObjectId>, k: nat)
    requires Path(g, p) && p[0] in t && Closed(g, t) && k < |p|
    ensures p[k] in t
  {
    if k > 0 {
      PathStaysInside(g, p, t, k - 1);
    }
  }

  lemma {:induction false} PathToMember(g: Graph, s: set<ObjectId>, x: ObjectId)
    requires x in Closure(g, s)
    ensures exists p :: Path(g, p) && p[0] in s && p[|p| - 1] == x
    decreases Linked(g) - s
  {
    var next := Neighbours(g, s);
    if next <= s {
      assert Path(g, [x]);
    } else {
      var y :| y in next && y !in s;
      assert y in Linked(g) - s && y !in Linked(g) - (s + next);
      PathToMember(g, s + next, x);
      var p :| Path(g, p) && p[0] in s + next && p[|p| - 1] == x;
      if p[0] !in s {
        var z :| z in s && z in g && p[0] in g[z];
        assert Path(g, [z] + p);
        assert ([z] + p)[0] in s && ([z] + p)[|p|] == x;
      }
    }
  }
}
