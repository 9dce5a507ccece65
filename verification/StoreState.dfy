/**
  What the object store holds for one repository, the single writes that change
  it, and the two promises that every crash point must keep: nothing that can be
  looked up names a generation that cannot be hydrated, and a commit is only
  mapped to a generation whose packs contain it with everything it reaches.
*/
module StoreState {
  import opened Wrappers
  import opened ObjectGraph

  type Time = int

  type RefName = string

  datatype GenerationId = GenerationId(uuid: nat)

  /** A pack is addressed by its content: the objects it holds and how they were encoded. */
  datatype PackKey = PackKey(objects: set<ObjectId>, encoding: nat)

  datatype PackKind = Base | Delta

  datatype PackInfo = PackInfo(key: PackKey, kind: PackKind)

  datatype GenerationManifest = GenerationManifest(
    createdAt: Time,
    packs: seq<PackInfo>,
    refs: map<RefName, ObjectId>,
    headRef: Option<RefName>,
    commits: seq<ObjectId>)
  {
    function PackKeys(): set<PackKey> {
      set p | p in packs :: p.key
    }

    /** All objects in all packs of the generation. */
    function Objects(): set<ObjectId> {
      set k, o | k in PackKeys() && o in k.objects :: o
    }
  }

  datatype CommitManifest = CommitManifest(generation: GenerationId, complete: bool, verifiedAt: Time)

  datatype RefManifest = RefManifest(refName: RefName, commit: ObjectId, generation: GenerationId, verifiedAt: Time)

  datatype Head = Head(generation: GenerationId, tips: seq<ObjectId>, updatedAt: Time)

  datatype State = State(
    packs: map<PackKey, Time>,
    generations: map<GenerationId, GenerationManifest>,
    commits: map<ObjectId, CommitManifest>,
    refs: map<RefName, RefManifest>,
    observations: map<(RefName, GenerationId), RefManifest>,
    defaultRef: Option<RefManifest>,
    head: Option<Head>)

  const EMPTY: State := State(map[], map[], map[], map[], map[], None, None)

  // ------------------------------------------------------------ single writes

  datatype Write =
    | PutPack(key: PackKey, at: Time)
    | PutGeneration(id: GenerationId, manifest: GenerationManifest)
    | PutCommit(commit: ObjectId, entry: CommitManifest)
    | PutRef(ref: RefManifest)
    | PutObservation(seen: RefManifest)
    | PutDefault(chosen: RefManifest)
    | PutHead(head: Head)
    | DeletePack(dead: PackKey)
    | DeleteGeneration(retired: GenerationId)

  function Applied(s: State, w: Write): State {
    match w
    case PutPack(key, at) => s.(packs := s.packs[key := at])
    case PutGeneration(id, m) => s.(generations := s.generations[id := m])
    case PutCommit(c, m) => s.(commits := s.commits[c := m])
    case PutRef(m) => s.(refs := s.refs[m.refName := m])
    case PutObservation(m) => s.(observations := s.observations[(m.refName, m.generation) := m])
    case PutDefault(m) => s.(defaultRef := Some(m))
    case PutHead(h) => s.(head := Some(h))
    case DeletePack(key) => s.(packs := s.packs - {key})
    case DeleteGeneration(id) => s.(generations := s.generations - {id})
  }

  /** The state after writes in order. */
  function AfterWrites(s: State, ws: seq<Write>): State {
    if ws == [] then s else Applied(AfterWrites(s, ws[..|ws| - 1]), ws[|ws| - 1])
  }

  lemma AfterOneMore(s: State, ws: seq<Write>, w: Write)
    ensures AfterWrites(s, ws + [w]) == Applied(AfterWrites(s, ws), w)
    ensures AfterWrites(s, []) == s
  {
    assert (ws + [w])[..|ws|] == ws;
  }

  lemma {:induction false} AfterBoth(s: State, a: seq<Write>, b: seq<Write>)
    ensures AfterWrites(s, a + b) == AfterWrites(AfterWrites(s, a), b)
  {
    hide Applied;
    if b == [] {
      assert a + b == a;
    } else {
      var n := |b| - 1;
      AfterBoth(s, a, b[..n]);
      assert (a + b)[..|a + b| - 1] == a + b[..n];
    }
  }

  /**
    An operation that was to make these writes stopped somewhere: an initial part
    of them took effect.  In a shared store the head may be somebody else's.
  */
  ghost predicate Reached(shared: bool, s: State, ws: seq<Write>, t: State) {
    exists n | 0 <= n <= |ws| :: SameButHead(shared, AfterWrites(s, ws[..n]), t)
  }

  predicate SameButHead(shared: bool, u: State, t: State) {
    t == u.(head := t.head) && (!shared ==> t.head == u.head)
  }

  lemma ReachedAt(shared: bool, s: State, ws: seq<Write>, n: nat, t: State)
    requires n <= |ws| && SameButHead(shared, AfterWrites(s, ws[..n]), t)
    ensures Reached(shared, s, ws, t)
  {
  }

  lemma StoppedAt(shared: bool, s: State, ws: seq<Write>, t: State) returns (n: nat)
    requires Reached(shared, s, ws, t)
    ensures n <= |ws| && SameButHead(shared, AfterWrites(s, ws[..n]), t)
  {
    hide AfterWrites, SameButHead;
    n :| 0 <= n <= |ws| && SameButHead(shared, AfterWrites(s, ws[..n]), t);
  }

  /** Stopped before the first write, or after the last. */
  lemma ReachedEnds(shared: bool, s: State, ws: seq<Write>)
    ensures Reached(shared, s, ws, s) && Reached(shared, s, ws, AfterWrites(s, ws))
  {
    assert ws[..0] == [] && ws[..|ws|] == ws;
    ReachedAt(shared, s, ws, 0, s);
    ReachedAt(shared, s, ws, |ws|, AfterWrites(s, ws));
  }

  lemma ReachedAnyway(shared: bool, s: State, ws: seq<Write>, t: State)
    requires Reached(false, s, ws, t)
    ensures Reached(shared, s, ws, t)
  {
    hide AfterWrites, Reached;
    var n := StoppedAt(false, s, ws, t);
    ReachedAt(shared, s, ws, n, t);
  }

  /** Stopping within the first part is stopping within the whole. */
  lemma ReachedWithin(part: bool, shared: bool, s: State, a: seq<Write>, b: seq<Write>, t: State)
    requires Reached(part, s, a, t) && (part ==> shared)
    ensures Reached(shared, s, a + b, t)
  {
    hide AfterWrites, Reached;
    var n := StoppedAt(part, s, a, t);
    assert (a + b)[..n] == a[..n];
    ReachedAt(shared, s, a + b, n, t);
  }

  lemma PrefixOfBoth(a: seq<Write>, b: seq<Write>, n: nat)
    requires n <= |b|
    ensures (a + b)[..|a| + n] == a + b[..n]
  {
  }

  /** Stopping within the second part, after the first was done. */
  lemma ReachedBeyond(shared: bool, s: State, a: seq<Write>, b: seq<Write>, t: State)
    requires Reached(shared, AfterWrites(s, a), b, t)
    ensures Reached(shared, s, a + b, t)
  {
    hide AfterWrites, SameButHead, Reached;
    var n := StoppedAt(shared, AfterWrites(s, a), b, t);
    AfterBoth(s, a, b[..n]);
    PrefixOfBoth(a, b, n);
    ReachedAt(shared, s, a + b, |a| + n, t);
  }

  /** Stopping after an initial part. */
  lemma ReachedAfter(s: State, a: seq<Write>, ws: seq<Write>, t: State)
    requires a <= ws && t == AfterWrites(s, a)
    ensures Reached(false, s, ws, t)
  {
    hide AfterWrites;
    assert ws[..|a|] == a;
    ReachedAt(false, s, ws, |a|, t);
  }

  // --------------------------------------------------- referential integrity

  /** The generation can be hydrated: its manifest exists and every pack it lists is stored. */
  predicate Usable(s: State, id: GenerationId) {
    id in s.generations && s.generations[id].PackKeys() <= s.packs.Keys
  }

  /** The generations that the head, a commit, a ref or the default manifest names. */
  function Referenced(s: State): set<GenerationId> {
    (if s.head.Some? then {s.head.value.generation} else {})
    + (set c | c in s.commits :: s.commits[c].generation)
    + (set r | r in s.refs :: s.refs[r].generation)
    + (if s.defaultRef.Some? then {s.defaultRef.value.generation} else {})
  }

  /** Every name leads to a generation that can be hydrated, and every ref manifest is stored under its own name. */
  predicate Integrity(s: State) {
    && (forall id | id in Referenced(s) :: Usable(s, id))
    && (forall r | r in s.refs :: s.refs[r].refName == r)
  }

  /** What a write must respect so that a crash right after it does no harm. */
  predicate Harmless(s: State, w: Write) {
    match w
    case PutPack(_, _) => true
    case PutGeneration(id, m) => m.PackKeys() <= s.packs.Keys
    case PutCommit(_, m) => Usable(s, m.generation)
    case PutRef(m) => Usable(s, m.generation)
    case PutObservation(_) => true
    case PutDefault(m) => Usable(s, m.generation)
    case PutHead(h) => Usable(s, h.generation)
    case DeletePack(key) => forall id | id in Referenced(s) && id in s.generations :: key !in s.generations[id].PackKeys()
    case DeleteGeneration(id) => id !in Referenced(s)
  }

  lemma ReferencedAfter(s: State, w: Write)
    ensures Referenced(Applied(s, w)) <= Referenced(s) + (match w
                                                          case PutCommit(_, m) => {m.generation}
                                                          case PutRef(m) => {m.generation}
                                                          case PutDefault(m) => {m.generation}
                                                          case PutHead(h) => {h.generation}
                                                          case _ => {})
  {
    forall id | id in Referenced(Applied(s, w)) && id !in Referenced(s)
      ensures w.PutCommit? || w.PutRef? || w.PutDefault? || w.PutHead?
    {
      var t := Applied(s, w);
      if c :| c in t.commits && t.commits[c].generation == id {
        assert !w.PutCommit? ==> s.commits[c].generation == id;
      }
      if r :| r in t.refs && t.refs[r].generation == id {
        assert !w.PutRef? ==> s.refs[r].generation == id;
      }
    }
  }

  lemma HarmlessKeepsIntegrity(s: State, w: Write)
    requires Integrity(s) && Harmless(s, w)
    ensures Integrity(Applied(s, w))
  {
    ReferencedAfter(s, w);
    var t := Applied(s, w);
    forall id | id in Referenced(t)
      ensures Usable(t, id)
    {
      assert w.DeleteGeneration? ==> id in Referenced(s);
    }
  }

  // ---------------------------------------------------------------- coverage

  /** The objects of a generation, none when it has no manifest. */
  function ObjectsOf(s: State, id: GenerationId): set<ObjectId> {
    if id in s.generations then s.generations[id].Objects() else {}
  }

  /** The generation's packs are closed under links and contain every commit it lists. */
  predicate SelfContained(g: Graph, m: GenerationManifest) {
    Closed(g, m.Objects()) && forall c | c in m.commits :: c in m.Objects()
  }

  predicate HeadCovered(s: State) {
    s.head.Some? ==> forall t | t in s.head.value.tips :: t in ObjectsOf(s, s.head.value.generation)
  }

  predicate CommitsCovered(s: State) {
    forall c | c in s.commits && s.commits[c].complete :: c in ObjectsOf(s, s.commits[c].generation)
  }

  predicate Covered(g: Graph, s: State) {
    && (forall id | id in s.generations :: SelfContained(g, s.generations[id]))
    && HeadCovered(s)
    && CommitsCovered(s)
  }

  /**
    What coverage is for: hydrating the generation that a complete commit
    manifest, a listed commit or a head tip leads to brings in everything that
    commit reaches.
  */
  lemma CoveredMeansComplete(g: Graph, s: State)
    requires Covered(g, s)
    ensures forall c | c in s.commits && s.commits[c].complete ::
              Closure(g, {c}) <= ObjectsOf(s, s.commits[c].generation)
    ensures s.head.Some? ==> forall t | t in s.head.value.tips ::
              Closure(g, {t}) <= ObjectsOf(s, s.head.value.generation)
    ensures forall id, c | id in s.generations && c in s.generations[id].commits ::
              Closure(g, {c}) <= ObjectsOf(s, id)
  {
    forall id, c | id in s.generations && c in ObjectsOf(s, id)
      ensures Closure(g, {c}) <= ObjectsOf(s, id)
    {
      ClosureOfMember(g, c, ObjectsOf(s, id));
    }
  }

  /** The part of coverage that a single write has to establish. */
  predicate Covering(g: Graph, s: State, w: Write) {
    match w
    case PutGeneration(id, m) => SelfContained(g, m) && (id in s.generations ==> s.generations[id] == m)
    case PutCommit(c, m) => m.complete ==> c in ObjectsOf(s, m.generation)
    case PutHead(h) => forall t | t in h.tips :: t in ObjectsOf(s, h.generation)
    case DeleteGeneration(id) => id !in Referenced(s)
    case _ => true
  }

  lemma CoveringKeepsCoverage(g: Graph, s: State, w: Write)
    requires Covered(g, s) && Integrity(s) && Covering(g, s, w)
    ensures Covered(g, Applied(s, w))
  {
    var t := Applied(s, w);
    forall id | id in Referenced(s)
      ensures ObjectsOf(t, id) == ObjectsOf(s, id)
    {
      assert Usable(s, id);
    }
    forall c | c in t.commits && t.commits[c].complete
      ensures c in ObjectsOf(t, t.commits[c].generation)
    {
      if w.PutCommit? && c == w.commit {
      } else {
        assert s.commits[c].generation in Referenced(s);
      }
    }
  }

  /**
    The ref named "default" and the default manifest are one object in the
    store.  Writing either replaces what both lead to, which is as harmless as
    writing the ref alone.
  */
  lemma SharedKeyIsHarmless(g: Graph, s: State, m: RefManifest)
    requires Integrity(s) && Usable(s, m.generation)
    ensures var t := Applied(Applied(s, PutRef(m)), PutDefault(m));
            Integrity(t) && (Covered(g, s) ==> Covered(g, t))
  {
    var u := Applied(s, PutRef(m));
    HarmlessKeepsIntegrity(s, PutRef(m));
    HarmlessKeepsIntegrity(u, PutDefault(m));
    if Covered(g, s) {
      CoveringKeepsCoverage(g, s, PutRef(m));
      CoveringKeepsCoverage(g, u, PutDefault(m));
    }
  }
}
