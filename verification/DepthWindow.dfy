/**
  The proof that a shallow request can be served locally: a level-by-level walk
  over all parents, bounded in depth, and the readiness checks built on it.
*/
module DepthWindow {
  import opened PktLine
  import CatFile

  type Sha = Bytes

  /** The commits present locally, with their ordered parents as the commit objects state them. */
  type History = map<Sha, seq<Sha>>

  const MAX_DEPTH: nat := 1024

  // ------------------------------------------------------------ reference notions

  function ParentsOf(h: History, s: set<Sha>): set<Sha> {
    set x, p | x in s && x in h && p in h[x] :: p
  }

  /** What is reached from a commit in at most k steps to a parent. */
  function Within(h: History, c: Sha, k: nat): set<Sha> {
    if k == 0 then {c} else Within(h, c, k - 1) + ParentsOf(h, Within(h, c, k - 1))
  }

  /** The shortest distance from c to x is d. */
  predicate AtDistance(h: History, c: Sha, x: Sha, d: nat) {
    x in Within(h, c, d) && (d > 0 ==> x !in Within(h, c, d - 1))
  }

  /** A chain from c to x, every link a step to a parent. */
  predicate Chain(h: History, p: seq<Sha>, c: Sha, x: Sha) {
    |p| > 0 && p[0] == c && p[|p| - 1] == x && forall i | 0 <= i < |p| - 1 :: p[i] in h && p[i + 1] in h[p[i]]
  }

  /** Reaching within k steps is having a chain of at most k links. */
  lemma WithinIsChain(h: History, c: Sha, x: Sha, k: nat)
    ensures x in Within(h, c, k) <==> exists p :: Chain(h, p, c, x) && |p| - 1 <= k
  {
    hide Chain, Within;
    if x in Within(h, c, k) {
      var p := ChainWithin(h, c, x, k);
    }
    if p :| Chain(h, p, c, x) && |p| - 1 <= k {
      ChainReaches(h, p, c, x);
      WithinGrows(h, c, |p| - 1, k);
    }
  }

  lemma {:induction false} ChainWithin(h: History, c: Sha, x: Sha, k: nat) returns (p: seq<Sha>)
    requires x in Within(h, c, k)
    ensures Chain(h, p, c, x) && |p| - 1 <= k
    decreases k
  {
    if k == 0 {
      p := [c];
    } else if x in Within(h, c, k - 1) {
      p := ChainWithin(h, c, x, k - 1);
    } else {
      var y :| y in Within(h, c, k - 1) && y in h && x in h[y];
      var q := ChainWithin(h, c, y, k - 1);
      p := q + [x];
    }
  }

  lemma {:induction false} ChainReaches(h: History, p: seq<Sha>, c: Sha, x: Sha)
    requires Chain(h, p, c, x)
    ensures |p| > 0 && x in Within(h, c, |p| - 1)
    decreases |p|
  {
    if |p| > 1 {
      var y := p[|p| - 2];
      assert Chain(h, p[..|p| - 1], c, y);
      ChainReaches(h, p[..|p| - 1], c, y);
      assert y in h && x in h[y];
    }
  }

  lemma {:induction false} WithinGrows(h: History, c: Sha, j: nat, k: nat)
    requires j <= k
    ensures Within(h, c, j) <= Within(h, c, k)
  {
    if j < k {
      WithinGrows(h, c, j, k - 1);
    }
  }

  /** Once a level adds nothing, no later level does. */
  lemma {:induction false} WithinSettles(h: History, c: Sha, j: nat, k: nat)
    requires j <= k && Within(h, c, j + 1) == Within(h, c, j)
    ensures Within(h, c, k) == Within(h, c, j)
  {
    if j < k {
      WithinSettles(h, c, j, k - 1);
    }
  }

  lemma DistanceIsUnique(h: History, c: Sha, x: Sha, d: nat, e: nat)
    requires AtDistance(h, c, x, d) && AtDistance(h, c, x, e)
    ensures d == e
  {
    if d < e {
      WithinGrows(h, c, d, e - 1);
    } else if e < d {
      WithinGrows(h, c, e, d - 1);
    }
  }

  lemma {:induction false} DistanceExists(h: History, c: Sha, x: Sha, k: nat)
    requires x in Within(h, c, k)
    ensures exists d: nat :: d <= k && AtDistance(h, c, x, d)
  {
    if k > 0 && x in Within(h, c, k - 1) {
      DistanceExists(h, c, x, k - 1);
    } else {
      assert AtDistance(h, c, x, k);
    }
  }

  // -------------------------------------------------------------------- the walk

  type Window = seq<(Sha, nat)>

  /** Every commit closer than a depth exactly once, each with its shortest distance. */
  ghost predicate Exact(h: History, c: Sha, depth: nat, w: Window) {
    && (forall i | 0 <= i < |w| :: w[i].1 < depth && AtDistance(h, c, w[i].0, w[i].1))
    && (forall i, j | 0 <= i < j < |w| :: w[i].0 != w[j].0)
    && (forall x, d: nat | d < depth && AtDistance(h, c, x, d) :: (x, d) in w)
  }

  /** All commits closer than a depth are present. */
  predicate AllPresent(h: History, c: Sha, depth: nat)
    requires depth > 0
  {
    Within(h, c, depth - 1) <= h.Keys
  }

  function Before(h: History, c: Sha, d: nat): set<Sha> {
    if d == 0 then {} else Within(h, c, d - 1)
  }

  function HistoryOf(objects: CatFile.Objects): History {
    map x | x in objects :: objects[x].parents
  }

  lemma {:induction false} WithinAreShas(objects: CatFile.Objects, c: Sha, k: nat)
    requires CatFile.AllGenuine(objects) && CatFile.IsSha(c)
    ensures forall x | x in Within(HistoryOf(objects), c, k) :: CatFile.IsSha(x)
  {
    hide CatFile.IsSha, CatFile.AllGenuine;
    if k > 0 {
      WithinAreShas(objects, c, k - 1);
      forall x, p | x in Within(HistoryOf(objects), c, k - 1) && x in objects && p in objects[x].parents
        ensures CatFile.IsSha(p)
      {
        CatFile.GenuineMember(objects, x);
      }
    }
  }

  /** The window so far lists exactly the commits seen so far, each with its distance. */
  ghost predicate Lists(h: History, c: Sha, seen: set<Sha>, w: Window) {
    && (forall i | 0 <= i < |w| :: w[i].0 in seen && AtDistance(h, c, w[i].0, w[i].1))
    && (forall i, j | 0 <= i < j < |w| :: w[i].0 != w[j].0)
    && (forall x | x in seen :: exists i :: 0 <= i < |w| && w[i].0 == x)
  }

  lemma ListsOneMore(h: History, c: Sha, seen: set<Sha>, w: Window, x: Sha, d: nat)
    requires Lists(h, c, seen, w) && x !in seen && AtDistance(h, c, x, d)
    ensures Lists(h, c, seen + {x}, w + [(x, d)])
  {
    var v := w + [(x, d)];
    forall y | y in seen + {x}
      ensures exists i :: 0 <= i < |v| && v[i].0 == y
    {
      if y == x {
        assert v[|w|].0 == x;
      } else {
        var i :| 0 <= i < |w| && w[i].0 == y;
        assert v[i].0 == y;
      }
    }
  }

  lemma ListingIsExact(h: History, c: Sha, depth: nat, w: Window)
    requires depth > 0 && Lists(h, c, Within(h, c, depth - 1), w)
    ensures Exact(h, c, depth, w) && w != []
  {
    assert c in Within(h, c, 0);
    hide Within;
    WithinGrows(h, c, 0, depth - 1);
    forall i | 0 <= i < |w|
      ensures w[i].1 < depth
    {
      ListedIsNear(h, c, depth, w[i].0, w[i].1);
    }
    forall x, d: nat | d < depth && AtDistance(h, c, x, d)
      ensures (x, d) in w
    {
      NearIsListed(h, c, depth, w, x, d);
    }
  }

  lemma ListedIsNear(h: History, c: Sha, depth: nat, x: Sha, d: nat)
    requires depth > 0 && x in Within(h, c, depth - 1) && AtDistance(h, c, x, d)
    ensures d < depth
  {
    hide Within;
    if d >= depth {
      WithinGrows(h, c, depth - 1, d - 1);
    }
  }

  lemma NearIsListed(h: History, c: Sha, depth: nat, w: Window, x: Sha, d: nat)
    requires d < depth && AtDistance(h, c, x, d) && Lists(h, c, Within(h, c, depth - 1), w)
    ensures (x, d) in w
  {
    assert x in Within(h, c, d);
    hide Within, AtDistance;
    WithinGrows(h, c, d, depth - 1);
    assert x in Within(h, c, depth - 1);
    var i :| 0 <= i < |w| && w[i].0 == x;
    assert w[i] == (x, w[i].1) && AtDistance(h, c, x, w[i].1);
    hide Lists;
    DistanceIsUnique(h, c, x, d, w[i].1);
  }

  /** What a frontier must offer: every commit of the level not seen before, and none beyond it. */
  ghost predicate Offers(h: History, c: Sha, d: nat, frontier: seq<Sha>) {
    && (forall x | x in frontier :: x in Within(h, c, d))
    && (forall x | x in Within(h, c, d) :: x in Before(h, c, d) || x in frontier)
  }

  /** One level: its new commits join the window, their parents the next frontier. */
  method WalkLevel(
    objects: CatFile.Objects, ghost h: History, c: Sha, d: nat, depth: nat, frontier: seq<Sha>, seen0: set<Sha>, window0: Window)
    returns (complete: bool, seen: set<Sha>, window: Window, next: seq<Sha>)
    requires h == HistoryOf(objects) && CatFile.AllGenuine(objects) && CatFile.IsSha(c)
    requires d < depth
    requires Offers(h, c, d, frontier) && seen0 == Before(h, c, d) && seen0 <= h.Keys && Lists(h, c, seen0, window0)
    ensures complete ==> seen == Within(h, c, d) && seen <= h.Keys && Lists(h, c, seen, window)
    ensures complete && d + 1 < depth ==> Offers(h, c, d + 1, next)
    ensures complete && d + 1 == depth ==> next == []
    ensures forall i, j | 0 <= i < j < |next| :: next[i] != next[j]
    ensures !complete ==> !(Within(h, c, d) <= h.Keys)
  {
    hide Within, Lists, AtDistance, CatFile.IsSha, CatFile.AllGenuine;
    WithinAreShas(objects, c, d);
    var parents := CatFile.CommitParentMap(objects, frontier);
    seen, window, next := seen0, window0, [];
    BeforeWithin(h, c, d);
    for j := 0 to |frontier|
      invariant seen == seen0 + set x | x in frontier[..j]
      invariant seen <= h.Keys && Lists(h, c, seen, window)
      invariant forall p | p in next :: p in ParentsOf(h, seen)
      invariant d + 1 == depth ==> next == []
      invariant forall i, j | 0 <= i < j < |next| :: next[i] != next[j]
      invariant d + 1 < depth ==> forall x, p | x in seen && x !in seen0 && p in h[x] :: p in seen || p in next
    {
      var current := frontier[j];
      assert frontier[..j + 1] == frontier[..j] + [current];
      if current in seen {
        continue;
      }
      if current !in parents {
        complete := false;
        return;
      }
      AtThisLevel(h, c, d, current);
      ListsOneMore(h, c, seen, window, current, d);
      ghost var before, queued := seen, next;
      seen := seen + {current};
      window := window + [(current, d)];
      if d + 1 >= depth {
        continue;
      }
      var ps := parents[current];
      for k := 0 to |ps|
        invariant forall p | p in queued :: p in next
        invariant forall i, j | 0 <= i < j < |next| :: next[i] != next[j]
        invariant forall p | p in next :: p in queued || p in ps[..k]
        invariant forall p | p in ps[..k] :: p in seen || p in next
      {
        assert ps[..k + 1] == ps[..k] + [ps[k]];
        if ps[k] !in seen && ps[k] !in next {
          next := next + [ps[k]];
        }
      }
      assert ps[..|ps|] == ps;
    }
    assert frontier[..|frontier|] == frontier;
    complete := true;
    assert seen == Within(h, c, d);
    if d + 1 < depth {
      NextLevel(h, c, d, next);
    }
  }

  lemma BeforeWithin(h: History, c: Sha, d: nat)
    ensures Before(h, c, d) <= Within(h, c, d)
  {
  }

  lemma AtThisLevel(h: History, c: Sha, d: nat, x: Sha)
    requires x in Within(h, c, d) && x !in Before(h, c, d)
    ensures AtDistance(h, c, x, d)
  {
  }

  lemma NextLevel(h: History, c: Sha, d: nat, next: seq<Sha>)
    requires Within(h, c, d) <= h.Keys
    requires forall p | p in next :: p in ParentsOf(h, Within(h, c, d))
    requires forall x, p | x in Within(h, c, d) && x !in Before(h, c, d) && p in h[x] :: p in Within(h, c, d) || p in next
    ensures Offers(h, c, d + 1, next)
  {
    forall p | p in Within(h, c, d + 1)
      ensures p in Within(h, c, d) || p in next
    {
      if p in ParentsOf(h, Within(h, c, d)) {
        var x :| x in Within(h, c, d) && x in h && p in h[x];
        if x in Before(h, c, d) {
          assert p in ParentsOf(h, Before(h, c, d));
        }
      }
    }
  }

  /**
    The depth-bounded all-parent window: exact when everything in it is present,
    and empty as soon as one commit of it is missing.
  */
  method AncestryWindow(objects: CatFile.Objects, c: Sha, depth: nat, ghost h: History) returns (window: Window)
    requires h == HistoryOf(objects) && CatFile.AllGenuine(objects) && CatFile.IsSha(c)
    ensures depth == 0 || depth > MAX_DEPTH ==> window == []
    ensures 1 <= depth <= MAX_DEPTH && AllPresent(h, c, depth) ==> Exact(h, c, depth, window) && window != []
    ensures 1 <= depth <= MAX_DEPTH && !AllPresent(h, c, depth) ==> window == []
  {
    hide Exact, Lists, Within, CatFile.IsSha, CatFile.AllGenuine;
    if depth == 0 || depth > MAX_DEPTH {
      return [];
    }
    window := [];
    var seen: set<Sha> := {};
    var frontier := [c];
    FirstLevel(h, c);
    for d := 0 to depth
      invariant seen == Before(h, c, d) && seen <= h.Keys && Lists(h, c, seen, window)
      invariant d < depth ==> Offers(h, c, d, frontier)
    {
      var complete, nowSeen, nowWindow, next := WalkLevel(objects, h, c, d, depth, frontier, seen, window);
      if !complete {
        WithinGrows(h, c, d, depth - 1);
        return [];
      }
      seen, window := nowSeen, nowWindow;
      if next == [] {
        if d + 1 < depth {
          Exhausted(h, c, d, depth - 1);
        }
        break;
      }
      frontier := next;
    }
    ListingIsExact(h, c, depth, window);
  }

  lemma FirstLevel(h: History, c: Sha)
    ensures Offers(h, c, 0, [c]) && Lists(h, c, {}, [])
  {
  }

  lemma Exhausted(h: History, c: Sha, d: nat, k: nat)
    requires Offers(h, c, d + 1, []) && d <= k
    ensures Within(h, c, k) == Within(h, c, d)
  {
    assert Within(h, c, d + 1) == Within(h, c, d);
    WithinSettles(h, c, d, k);
  }

  // ------------------------------------------------------------- the readiness checks

  /** The local repository as the checks see it. */
  datatype LocalState = LocalState(objects: CatFile.Objects, shallow: set<Sha>, trees: set<Sha>)
  {
    function Graph(): History {
      HistoryOf(objects)
    }
  }

  /** Every commit closer than the depth is present with its tree, and no graft cuts the window short. */
  ghost predicate Servable(r: LocalState, c: Sha, depth: nat) {
    && 1 <= depth <= MAX_DEPTH
    && AllPresent(r.Graph(), c, depth)
    && Within(r.Graph(), c, depth - 1) <= r.trees
    && forall x, d: nat | x in r.shallow && AtDistance(r.Graph(), c, x, d) :: d + 1 >= depth
  }

  method WindowReady(r: LocalState, c: Sha, depth: nat) returns (ready: bool)
    requires CatFile.AllGenuine(r.objects) && CatFile.IsSha(c)
    ensures ready <==> Servable(r, c, depth)
  {
    hide Within, HistoryOf, CatFile.AllGenuine, CatFile.IsSha;
    if depth == 0 || depth > MAX_DEPTH {
      return false;
    }
    var window := AncestryWindow(r.objects, c, depth, r.Graph());
    if window == [] {
      return false;
    }
    for i := 0 to |window|
      invariant forall j | 0 <= j < i :: window[j].0 in r.trees && (window[j].0 in r.shallow ==> window[j].1 + 1 >= depth)
    {
      var (x, d) := window[i];
      if x in r.shallow && d + 1 < depth {
        return false;
      }
      if x !in r.trees {
        WithinGrows(r.Graph(), c, d, depth - 1);
        return false;
      }
    }
    forall x | x in Within(r.Graph(), c, depth - 1)
      ensures x in r.trees
    {
      DistanceExists(r.Graph(), c, x, depth - 1);
      var d: nat :| d <= depth - 1 && AtDistance(r.Graph(), c, x, d);
      assert (x, d) in window;
    }
    forall x, d: nat | x in r.shallow && AtDistance(r.Graph(), c, x, d)
      ensures d + 1 >= depth
    {
      if d < depth {
        assert (x, d) in window;
      }
    }
    return true;
  }

  /** What can be served at a depth can be served at every smaller positive depth. */
  lemma ServableAtSmallerDepth(r: LocalState, c: Sha, depth: nat, smaller: nat)
    requires Servable(r, c, depth) && 1 <= smaller <= depth
    ensures Servable(r, c, smaller)
  {
    hide Within, HistoryOf, AtDistance;
    WithinGrows(r.Graph(), c, smaller - 1, depth - 1);
  }

  /** The cache reaches below a client's boundary commit: nothing within the depth is one of its own grafts. */
  ghost predicate ReachesBelow(r: LocalState, boundary: Sha, depth: nat) {
    && boundary in r.objects
    && 1 <= depth && AllPresent(r.Graph(), boundary, depth)
    && Within(r.Graph(), boundary, depth - 1) !! r.shallow
  }

  ghost predicate DeepenSatisfied(r: LocalState, boundaries: seq<Sha>, depth: nat) {
    && boundaries != [] && depth <= MAX_DEPTH
    && (r.shallow == {} || forall b | b in boundaries :: ReachesBelow(r, b, depth))
  }

  /** Walks one boundary's window and looks for the cache's own grafts in it. */
  method CheckBoundary(r: LocalState, b: Sha, depth: nat) returns (clear: bool)
    requires CatFile.AllGenuine(r.objects) && CatFile.IsSha(b) && depth <= MAX_DEPTH
    ensures clear <==> ReachesBelow(r, b, depth)
  {
    hide CatFile.AllGenuine, CatFile.IsSha, Within;
    if b !in r.objects {
      return false;
    }
    ghost var h := r.Graph();
    var window := AncestryWindow(r.objects, b, depth, h);
    if window == [] {
      return false;
    }
    for j := 0 to |window|
      invariant forall k | 0 <= k < j :: window[k].0 !in r.shallow
    {
      if window[j].0 in r.shallow {
        WithinGrows(h, b, window[j].1, depth - 1);
        return false;
      }
    }
    forall x | x in Within(h, b, depth - 1)
      ensures x !in r.shallow
    {
      DistanceExists(h, b, x, depth - 1);
      var d: nat :| d <= depth - 1 && AtDistance(h, b, x, d);
      assert (x, d) in window;
    }
    return true;
  }

  method DeepenBoundarySatisfied(r: LocalState, boundaries: seq<Sha>, depth: nat) returns (satisfied: bool)
    requires CatFile.AllGenuine(r.objects) && forall b | b in boundaries :: CatFile.IsSha(b)
    ensures satisfied <==> DeepenSatisfied(r, boundaries, depth)
  {
    hide CatFile.AllGenuine, CatFile.IsSha, ReachesBelow;
    if boundaries == [] || depth > MAX_DEPTH {
      return false;
    }
    if r.shallow == {} {
      return true;
    }
    for i := 0 to |boundaries|
      invariant forall j | 0 <= j < i :: ReachesBelow(r, boundaries[j], depth)
    {
      assert boundaries[i] in boundaries;
      var clear := CheckBoundary(r, boundaries[i], depth);
      if !clear {
        return false;
      }
    }
    return true;
  }

  /** A deepen that is satisfied at a depth is satisfied at every smaller positive depth. */
  lemma DeepenAtSmallerDepth(r: LocalState, boundaries: seq<Sha>, depth: nat, smaller: nat)
    requires DeepenSatisfied(r, boundaries, depth) && 1 <= smaller <= depth
    ensures DeepenSatisfied(r, boundaries, smaller)
  {
    hide Within, HistoryOf;
    if r.shallow != {} {
      forall b | b in boundaries
        ensures ReachesBelow(r, b, smaller)
      {
        WithinGrows(r.Graph(), b, smaller - 1, depth - 1);
      }
    }
  }
}
