/**
  Publishing and indexing generations.  Every operation is
  a sequence of single writes; a write may fail, which ends the operation where
  it stands, so a contract that holds of every outcome holds of every crash.
*/
module GenerationStore {
  import opened Wrappers
  import opened ObjectGraph
  import opened StoreState
  import opened LocalRepo

  const HEAD_CAS_MAX_ATTEMPTS: nat := 5

  /** Listings at least this long are refused, or cut off when only packs are listed. */
  const MAX_SCAN_KEYS: nat := 10_000

  predicate Distinct<T(==)>(q: seq<T>) {
    forall i, j | 0 <= i < j < |q| :: q[i] != q[j]
  }

  function PushUnique(commits: seq<ObjectId>, c: ObjectId): (r: seq<ObjectId>)
    ensures forall x :: x in r <==> x in commits || x == c
    ensures commits <= r && |r| == |commits| + if c in commits then 0 else 1
    ensures Distinct(commits) ==> Distinct(r)
  {
    if c in commits then commits else commits + [c]
  }

  function AsSet(commits: seq<ObjectId>): set<ObjectId> {
    set c | c in commits
  }

  // ------------------------------------------------------- packs and closure

  lemma ObjectsOfPacks(m: GenerationManifest, n: GenerationManifest, key: PackKey)
    requires n.PackKeys() == m.PackKeys() + {key}
    ensures n.Objects() == m.Objects() + key.objects
  {
  }

  /**
    A delta on top of a self-contained generation: leaving out what the previous
    tips reach loses nothing, because the previous packs already hold it.
  */
  lemma DeltaCompletesPrevious(g: Graph, previous: set<ObjectId>, wanted: set<ObjectId>, tips: set<ObjectId>)
    requires Closed(g, previous) && tips <= previous
    ensures previous + (Closure(g, wanted) - Closure(g, tips)) == previous + Closure(g, wanted)
    ensures Closed(g, previous + Closure(g, wanted))
  {
    ClosureIsLeast(g, tips, previous);
  }

  // ----------------------------------------------------------------- the store

  /** Whatever the outcome, integrity survives if the step was harmless, and coverage if it was covering too. */
  ghost predicate Kept(g: Graph, before: State, after: State, harmless: bool, covering: bool) {
    Integrity(before) && harmless ==> Integrity(after) && (Covered(g, before) && covering ==> Covered(g, after))
  }

  lemma KeptStart(g: Graph, a: State, harmless: bool, covering: bool)
    ensures Kept(g, a, a, harmless, covering)
  {
  }

  lemma KeptThen(g: Graph, a: State, b: State, c: State, harmless: bool, covering: bool, thenHarmless: bool, thenCovering: bool)
    requires Kept(g, a, b, harmless, covering)
    requires Kept(g, b, c, thenHarmless, thenCovering)
    requires harmless ==> thenHarmless
    requires Integrity(a) && Covered(g, a) && harmless && covering ==> thenCovering
    ensures Kept(g, a, c, harmless, covering)
  {
  }

  predicate TipsCovered(s: State, h: Head) {
    forall t | t in h.tips :: t in ObjectsOf(s, h.generation)
  }

  class ObjectStore {
    /** Whether publishers elsewhere may move the head between two of our steps. */
    const shared: bool
    var state: State
    /** How many of our requests have failed. */
    ghost var faults: nat

    constructor (shared: bool)
      ensures state == EMPTY && faults == 0 && this.shared == shared
    {
      this.shared := shared;
      state := EMPTY;
      faults := 0;
    }

    /** A publisher elsewhere may install a head of its own, which it has made usable first. */
    method HeadMayMove(ghost g: Graph)
      modifies this`state
      ensures state == old(state).(head := state.head)
      ensures !shared ==> state == old(state)
      ensures Kept(g, old(state), state, true, true)
    {
      if shared {
        var theirs: Head := *;
        if Usable(state, theirs.generation) && TipsCovered(state, theirs) {
          ghost var w := PutHead(theirs);
          if Integrity(state) {
            HarmlessKeepsIntegrity(state, w);
            if Covered(g, state) {
              CoveringKeepsCoverage(g, state, w);
            }
          }
          state := state.(head := Some(theirs));
        }
      }
    }

    /** One write reaches the store, or it fails and nothing has changed. */
    method Perform(w: Write, ghost g: Graph) returns (ok: bool)
      modifies this
      ensures state == if ok then Applied(old(state), w) else old(state)
      ensures faults == old(faults) + if ok then 0 else 1
      ensures Kept(g, old(state), state, Harmless(old(state), w), Covering(g, old(state), w))
    {
      if * {
        faults := faults + 1;
        return false;
      }
      if Integrity(state) && Harmless(state, w) {
        HarmlessKeepsIntegrity(state, w);
      }
      if Integrity(state) && Covered(g, state) && Covering(g, state, w) {
        CoveringKeepsCoverage(g, state, w);
      }
      state := Applied(state, w);
      return true;
    }
  }

  /** A generation manifest is written once; a different one under the same id is a conflict. */
  method WriteGenerationIfAbsentOrMatches(store: ObjectStore, id: GenerationId, m: GenerationManifest, ghost g: Graph)
    returns (r: Result<(), Error>)
    modifies store
    ensures r.Ok? ==> store.state == Applied(old(store.state), PutGeneration(id, m))
                      && (id in old(store.state).generations ==> old(store.state).generations[id] == m)
    ensures r.Err? ==> store.state == old(store.state)
    ensures store.faults == old(store.faults) + if r == Err(Unavailable) then 1 else 0
    ensures r.Err? && r != Err(Unavailable) ==>
              r == Err(Conflict) && id in old(store.state).generations && old(store.state).generations[id] != m
    ensures Kept(g, old(store.state), store.state, m.PackKeys() <= old(store.state).packs.Keys, SelfContained(g, m))
  {
    if id in store.state.generations {
      if store.state.generations[id] != m {
        return Err(Conflict);
      }
      assert store.state.generations[id := m] == store.state.generations;
      return Ok(());
    }
    var ok := store.Perform(PutGeneration(id, m), g);
    return if ok then Ok(()) else Err(Unavailable);
  }

  /** A commit manifest is written once; a different one for the same commit is a conflict. */
  method WriteCommitIfAbsentOrMatches(store: ObjectStore, c: ObjectId, m: CommitManifest, ghost g: Graph)
    returns (r: Result<(), Error>)
    modifies store
    ensures r.Ok? ==> store.state == Applied(old(store.state), PutCommit(c, m))
                      && (c in old(store.state).commits ==> old(store.state).commits[c] == m)
    ensures r.Err? ==> store.state == old(store.state)
    ensures store.faults == old(store.faults) + if r == Err(Unavailable) then 1 else 0
    ensures r.Err? && r != Err(Unavailable) ==>
              r == Err(Conflict) && c in old(store.state).commits && old(store.state).commits[c] != m
    ensures Kept(g, old(store.state), store.state,
                 Usable(old(store.state), m.generation), c in ObjectsOf(old(store.state), m.generation))
  {
    if c in store.state.commits {
      if store.state.commits[c] != m {
        return Err(Conflict);
      }
      assert store.state.commits[c := m] == store.state.commits;
      return Ok(());
    }
    var ok := store.Perform(PutCommit(c, m), g);
    return if ok then Ok(()) else Err(Unavailable);
  }

  function WithDefault(s: State, m: RefManifest): State {
    Applied(Applied(s, PutRef(m)), PutDefault(m))
  }

  /** The HEAD ref first, then the default manifest. */
  function DefaultScript(m: Option<RefManifest>): seq<Write> {
    if m.Some? then [PutRef(m.value), PutDefault(m.value)] else []
  }

  lemma DefaultWrites(s: State, m: RefManifest)
    ensures AfterWrites(s, DefaultScript(None)) == s
    ensures AfterWrites(s, DefaultScript(Some(m))[..0]) == s
    ensures AfterWrites(s, DefaultScript(Some(m))[..1]) == Applied(s, PutRef(m))
    ensures AfterWrites(s, DefaultScript(Some(m))) == WithDefault(s, m)
  {
    hide Applied;
    var ws := DefaultScript(Some(m));
    assert ws[..0] == [] && ws[..1] == [PutRef(m)] && [PutRef(m)][..0] == [];
  }

  method WriteDefaultRef(store: ObjectStore, m: RefManifest, ghost g: Graph) returns (ok: bool)
    modifies store
    ensures ok ==> store.state == WithDefault(old(store.state), m)
    ensures !ok ==> store.state == old(store.state) || store.state == Applied(old(store.state), PutRef(m))
    ensures Reached(false, old(store.state), DefaultScript(Some(m)), store.state)
    ensures store.faults == old(store.faults) + if ok then 0 else 1
    ensures Kept(g, old(store.state), store.state,
                 Usable(old(store.state), m.generation), Usable(old(store.state), m.generation))
  {
    ghost var s, ws := store.state, DefaultScript(Some(m));
    DefaultWrites(s, m);
    ReachedEnds(false, s, ws);
    ok := store.Perform(PutRef(m), g);
    if ok {
      ReachedAt(false, s, ws, 1, store.state);
      ok := store.Perform(PutDefault(m), g);
    }
  }

  /** Compare-and-swap of the head: it is replaced only if it still is what was read. */
  method SwapHead(store: ObjectStore, h: Head, seen: Option<Head>, ghost g: Graph) returns (r: Result<bool, Error>)
    modifies store
    ensures r == Ok(true) ==> old(store.state).head == seen && store.state == Applied(old(store.state), PutHead(h))
    ensures r != Ok(true) ==> store.state == old(store.state)
    ensures r == Ok(false) ==> old(store.state).head != seen
    ensures r.Err? ==> r == Err(Unavailable) && old(store.state).head == seen
    ensures store.faults == old(store.faults) + if r == Err(Unavailable) then 1 else 0
    ensures Kept(g, old(store.state), store.state,
                 Usable(old(store.state), h.generation), TipsCovered(old(store.state), h))
  {
    if store.state.head != seen {
      return Ok(false);
    }
    var ok := store.Perform(PutHead(h), g);
    return if ok then Ok(true) else Err(Unavailable);
  }

  /** The head after a publisher has offered its own: a strictly newer one stays. */
  function HeadAfter(current: Option<Head>, mine: Head): Head {
    if current.Some? && current.value.updatedAt > mine.updatedAt then current.value else mine
  }

  function HeadScript(current: Option<Head>, mine: Head): seq<Write> {
    if current.Some? && current.value.updatedAt > mine.updatedAt then [] else [PutHead(mine)]
  }

  function FinishScript(s: State, h: Head, default: Option<RefManifest>): seq<Write> {
    DefaultScript(default) + HeadScript(s.head, h)
  }

  lemma HeadWrites(shared: bool, s: State, default: Option<RefManifest>, h: Head, t: State)
    requires var d := if default.Some? then WithDefault(s, default.value) else s;
             SameButHead(shared, d, t) || t == d.(head := Some(HeadAfter(s.head, h)))
    ensures Reached(shared, s, FinishScript(s, h, default), t)
  {
    var ws, d := DefaultScript(default), if default.Some? then WithDefault(s, default.value) else s;
    if default.Some? {
      DefaultWrites(s, default.value);
    }
    assert AfterWrites(s, ws) == d;
    var hs := HeadScript(s.head, h);
    assert d.head == s.head;
    if SameButHead(shared, d, t) {
      ReachedEnds(false, d, hs);
      assert hs[..0] == [];
      ReachedAt(shared, d, hs, 0, t);
    } else {
      assert hs != [] ==> hs[..0] == [];
      assert AfterWrites(d, hs) == t;
      ReachedEnds(shared, d, hs);
    }
    ReachedBeyond(shared, s, ws, hs, t);
  }

  method FinishPublish(store: ObjectStore, h: Head, default: Option<RefManifest>, ghost g: Graph)
    returns (r: Result<(), Error>)
    requires default.Some? ==> default.value.generation == h.generation
    modifies store
    ensures Reached(store.shared, old(store.state), FinishScript(old(store.state), h, default), store.state)
    ensures r.Err? ==> r == Err(Unavailable)
    ensures store.faults == old(store.faults) + if r == Err(Unavailable) then 1 else 0
    ensures r.Ok? ==>
              var s := if default.Some? then WithDefault(old(store.state), default.value) else old(store.state);
              && store.state == s.(head := store.state.head)
              && (!store.shared ==> store.state.head == Some(HeadAfter(s.head, h)))
    ensures store.state.packs == old(store.state).packs && store.state.generations == old(store.state).generations
    ensures store.state.commits == old(store.state).commits
    ensures Kept(g, old(store.state), store.state,
                 Usable(old(store.state), h.generation),
                 Usable(old(store.state), h.generation) && TipsCovered(old(store.state), h))
  {
    hide Reached, AfterWrites, Kept, Integrity, Covered, Usable, TipsCovered, FinishScript;
    ghost var s := store.state;
    ghost var harmless, covering := Usable(s, h.generation), Usable(s, h.generation) && TipsCovered(s, h);
    KeptStart(g, s, harmless, covering);
    if default.Some? {
      var ok := WriteDefaultRef(store, default.value, g);
      DefaultStopped(store.shared, s, h, default, store.state);
      KeptThen(g, s, s, store.state, harmless, covering, harmless, harmless);
      if !ok {
        return Err(Unavailable);
      }
    }
    ghost var start := store.state;
    HeadWrites(store.shared, s, default, h, start);
    for attempt := 0 to HEAD_CAS_MAX_ATTEMPTS
      invariant store.state == start.(head := store.state.head)
      invariant store.shared || (attempt == 0 && store.state == start)
      invariant store.faults == old(store.faults)
      invariant Kept(g, s, store.state, harmless, covering)
      invariant Reached(store.shared, s, FinishScript(s, h, default), store.state)
    {
      ghost var before := store.state;
      store.HeadMayMove(g);
      KeptThen(g, s, before, store.state, harmless, covering, true, true);
      HeadWrites(store.shared, s, default, h, store.state);
      var current := store.state.head;
      if current.Some? && current.value.updatedAt > h.updatedAt {
        return Ok(());
      }
      before := store.state;
      store.HeadMayMove(g);
      KeptThen(g, s, before, store.state, harmless, covering, true, true);
      before := store.state;
      HeadDepends(s, before, h);
      var swapped := SwapHead(store, h, current, g);
      KeptThen(g, s, before, store.state, harmless, covering, Usable(before, h.generation), TipsCovered(before, h));
      HeadWrites(store.shared, s, default, h, store.state);
      if swapped.Err? {
        return Err(swapped.error);
      }
      if swapped.value {
        return Ok(());
      }
    }
    return Ok(());
  }

  lemma DefaultStopped(shared: bool, s: State, h: Head, default: Option<RefManifest>, t: State)
    requires Reached(false, s, DefaultScript(default), t)
    ensures Reached(shared, s, FinishScript(s, h, default), t)
  {
    hide Reached;
    ReachedWithin(false, shared, s, DefaultScript(default), HeadScript(s.head, h), t);
  }

  lemma HeadDepends(s: State, t: State, h: Head)
    requires s.packs == t.packs && s.generations == t.generations
    ensures Usable(s, h.generation) == Usable(t, h.generation) && TipsCovered(s, h) == TipsCovered(t, h)
  {
  }

  // ------------------------------------------------------------------ publish

  /** What a publish has decided to write before its first write. */
  datatype Plan = Plan(
    id: GenerationId,
    delta: bool,
    key: PackKey,
    manifest: GenerationManifest,
    head: Head,
    branch: Option<RefManifest>,
    default: Option<RefManifest>,
    now: Time)

  datatype Request = Request(
    commit: ObjectId,
    branch: Option<RefName>,
    defaultBranch: bool,
    usePreviousHead: bool,
    id: GenerationId,
    now: Time)

  /** The generation a delta builds on. */
  function Previous(s: State, delta: bool): Option<GenerationManifest> {
    if delta && s.head.Some? && s.head.value.generation in s.generations
    then Some(s.generations[s.head.value.generation]) else None
  }

  function PreviousTips(s: State, delta: bool): seq<ObjectId> {
    if delta && s.head.Some? then s.head.value.tips else []
  }

  /** The cached commits that no commit manifest maps yet. */
  function Unmapped(s: State, cached: set<ObjectId>): set<ObjectId> {
    set c | c in cached && c !in s.commits
  }

  predicate Planned(g: Graph, s: State, refs: map<RefName, ObjectId>, cached: set<ObjectId>, q: Request, p: Plan) {
    var base := if Previous(s, p.delta).Some? then Previous(s, p.delta).value.packs else [];
    && p.id == q.id && p.now == q.now
    && (p.delta ==> q.usePreviousHead && Previous(s, true).Some? && PreviousTips(s, true) != [])
    && p.key.objects == Closure(g, refs.Values) - Closure(g, AsSet(PreviousTips(s, p.delta)))
    && p.manifest.packs == (if exists i :: i in base && i.key == p.key then base
                            else base + [PackInfo(p.key, if p.delta then Delta else Base)])
    && p.manifest.createdAt == q.now && p.manifest.refs == refs
    && (p.manifest.headRef.Some? ==> p.manifest.headRef.value in refs)
    && AsSet(p.manifest.commits) == Unmapped(s, cached) + {q.commit}
    && [q.commit] <= p.manifest.commits && Distinct(p.manifest.commits)
    && p.head == Head(q.id, PushUnique(PreviousTips(s, p.delta), q.commit), q.now)
    && p.branch == (if q.branch.Some? then Some(RefManifest(q.branch.value, q.commit, q.id, q.now)) else None)
    && p.default == (if q.defaultBranch then Some(RefManifest("HEAD", q.commit, q.id, q.now)) else None)
  }

  lemma ClosureOfNothing(g: Graph)
    ensures Closure(g, {}) == {}
  {
    ClosureIsLeast(g, {}, {});
  }

  /** The packs of a planned generation: what the previous ones hold and what the refs reach. */
  lemma PlannedObjects(g: Graph, s: State, refs: map<RefName, ObjectId>, cached: set<ObjectId>, q: Request, p: Plan)
    requires Planned(g, s, refs, cached, q, p) && Covered(g, s)
    ensures var previous := if p.delta then ObjectsOf(s, s.head.value.generation) else {};
            p.manifest.Objects() == previous + Closure(g, refs.Values)
    ensures Closed(g, p.manifest.Objects())
    ensures forall t | t in PreviousTips(s, p.delta) :: t in p.manifest.Objects()
  {
    PlannedKeys(g, s, refs, cached, q, p);
    if p.delta {
      var m := Previous(s, true).value;
      ObjectsOfPacks(m, p.manifest, p.key);
      DeltaCompletesPrevious(g, m.Objects(), refs.Values, AsSet(PreviousTips(s, true)));
    } else {
      ClosureOfNothing(g);
      assert PreviousTips(s, p.delta) == [];
      assert AsSet([]) == {};
      assert p.manifest.Objects() == p.key.objects;
    }
  }

  lemma PlannedKeys(g: Graph, s: State, refs: map<RefName, ObjectId>, cached: set<ObjectId>, q: Request, p: Plan)
    requires Planned(g, s, refs, cached, q, p)
    ensures p.manifest.PackKeys()
            == (if Previous(s, p.delta).Some? then Previous(s, p.delta).value.PackKeys() else {}) + {p.key}
  {
    var base := if Previous(s, p.delta).Some? then Previous(s, p.delta).value.packs else [];
    forall k | k in p.manifest.PackKeys()
      ensures k in (set i | i in base :: i.key) + {p.key}
    {
    }
    if exists i :: i in base && i.key == p.key {
    } else {
      var last := PackInfo(p.key, if p.delta then Delta else Base);
      assert p.manifest.packs[|base|] == last;
      forall i | i in base
        ensures i in p.manifest.packs
      {
      }
    }
  }

  /**
    A planned generation holds everything its commits and the new head's tips
    reach, exactly when its packs hold the published commit; that is so whenever
    a ref reaches it.
  */
  lemma PlannedGenerationIsSelfContained(
    g: Graph, s: State, refs: map<RefName, ObjectId>, cached: set<ObjectId>, q: Request, p: Plan)
    requires Planned(g, s, refs, cached, q, p) && Covered(g, s) && cached <= refs.Values
    ensures SelfContained(g, p.manifest) <==> q.commit in p.manifest.Objects()
    ensures q.commit in p.manifest.Objects() ==> forall t | t in p.head.tips :: t in p.manifest.Objects()
    ensures q.commit in Closure(g, refs.Values) ==> q.commit in p.manifest.Objects()
  {
    PlannedObjects(g, s, refs, cached, q, p);
    assert q.commit in AsSet(p.manifest.commits);
    forall c | c in p.manifest.commits
      ensures c == q.commit || c in Closure(g, refs.Values)
    {
      assert c in AsSet(p.manifest.commits);
    }
  }

  /** The commits of refs that only the cache keeps. */
  function CachedCommits(refs: map<RefName, ObjectId>): set<ObjectId> {
    CommitsOf(refs, "refs/cache/upstream/heads") + CommitsOf(refs, "refs/cache/commits")
  }

  function Cached(repo: Repo): set<ObjectId>
    reads repo
  {
    CachedCommits(repo.refs)
  }

  lemma CachedIsReferred(refs: map<RefName, ObjectId>)
    ensures CachedCommits(refs) <= refs.Values
  {
  }

  method CollectCommits(s: State, repo: Repo, commit: ObjectId) returns (commits: seq<ObjectId>)
    ensures AsSet(commits) == Unmapped(s, Cached(repo)) + {commit}
    ensures [commit] <= commits && Distinct(commits)
  {
    commits := [commit];
    var prefixes := ["refs/cache/upstream/heads", "refs/cache/commits"];
    ghost var done := {};
    for i := 0 to 2
      invariant done == (if i > 0 then repo.CommitsUnder(prefixes[0]) else {})
                      + (if i > 1 then repo.CommitsUnder(prefixes[1]) else {})
      invariant forall c :: c in commits <==> c == commit || c in Unmapped(s, done)
      invariant [commit] <= commits && Distinct(commits)
    {
      var candidates := repo.ForEachRefCommits(prefixes[i]);
      for j := 0 to |candidates|
        invariant forall c :: c in commits <==> c == commit || c in Unmapped(s, done + AsSet(candidates[..j]))
        invariant [commit] <= commits && Distinct(commits)
      {
        assert AsSet(candidates[..j + 1]) == AsSet(candidates[..j]) + {candidates[j]};
        if candidates[j] !in s.commits {
          commits := PushUnique(commits, candidates[j]);
        }
      }
      assert AsSet(candidates[..|candidates|]) == repo.CommitsUnder(prefixes[i]);
      done := done + repo.CommitsUnder(prefixes[i]);
    }
  }

  /** A delta on the head is asked for, and there is something to build it on. */
  predicate DeltaPossible(s: State, q: Request) {
    q.usePreviousHead && Previous(s, true).Some? && PreviousTips(s, true) != []
  }

  /** The HEAD that a generation records: the repository's, if it leads to a ref. */
  function ServedHead(refs: map<RefName, ObjectId>, headRef: Option<RefName>): Option<RefName> {
    if headRef.Some? && headRef.value in refs then headRef else None
  }

  /** A delta keeps the packs and tips it builds on, in front. */
  lemma DeltaExtends(g: Graph, s: State, refs: map<RefName, ObjectId>, cached: set<ObjectId>, q: Request, p: Plan)
    requires Planned(g, s, refs, cached, q, p) && p.delta
    ensures s.generations[s.head.value.generation].packs <= p.manifest.packs && s.head.value.tips <= p.head.tips
    ensures p.key in p.manifest.PackKeys() && p.manifest.packs <= s.generations[s.head.value.generation].packs + [PackInfo(p.key, Delta)]
  {
    PlannedKeys(g, s, refs, cached, q, p);
  }

  lemma BuildsOnHead(g: Graph, s: State, refs: map<RefName, ObjectId>, cached: set<ObjectId>, q: Request, p: Plan)
    requires Planned(g, s, refs, cached, q, p)
    ensures DeltaPossible(s, q) <==>
              q.usePreviousHead && s.head.Some? && s.head.value.generation in s.generations && s.head.value.tips != []
    ensures p.delta ==>
              s.generations[s.head.value.generation].packs <= p.manifest.packs && s.head.value.tips <= p.head.tips
  {
    if p.delta {
      DeltaExtends(g, s, refs, cached, q, p);
    }
    hide Planned;
  }

  /** Packs what the refs reach beyond the tips of the head; failing that, everything. */
  method MakePack(repo: Repo, possible: bool, tips: seq<ObjectId>) returns (packed: Result<PackKey, Error>, incremental: bool)
    modifies repo`failures
    ensures packed.Ok? ==>
              packed.value.objects == Closure(repo.graph, repo.refs.Values) - Closure(repo.graph, AsSet(if incremental then tips else []))
    ensures packed.Ok? ==> (incremental <==> possible && repo.failures == old(repo.failures))
    ensures old(repo.failures) <= repo.failures
    ensures packed.Ok? ==> repo.failures <= old(repo.failures) + if possible then 1 else 0
    ensures packed.Err? && repo.refs != map[] ==> repo.failures == old(repo.failures) + if possible then 2 else 1
    ensures repo.refs == map[] ==> packed.Err?
  {
    hide Closure;
    var wanted := repo.refs.Values;
    assert wanted == {} <==> repo.refs == map[] by {
      if r :| r in repo.refs {
        assert repo.refs[r] in wanted;
      }
    }
    assert AsSet([]) == {};
    incremental := possible;
    if incremental {
      packed := repo.PackObjectsRevs(wanted, AsSet(tips));
      if packed.Err? {
        incremental := false;
        packed := repo.PackObjectsRevs(wanted, {});
      }
    } else {
      packed := repo.PackObjectsRevs(wanted, {});
    }
  }

  /**
    Builds the pack and everything that will be written about it; reads the
    store, writes nothing.  It is a delta whenever that is possible and no
    command has failed; only a failure to pack makes it fall back to a full pack.
  */
  method MakePlan(s: State, repo: Repo, q: Request) returns (r: Result<Plan, Error>)
    modifies repo`failures
    ensures r.Ok? ==> Planned(repo.graph, s, repo.refs, Cached(repo), q, r.value)
    ensures r.Ok? ==> (r.value.delta <==> DeltaPossible(s, q) && repo.failures == old(repo.failures))
    ensures r.Ok? ==> r.value.manifest.headRef == ServedHead(repo.refs, repo.headRef)
    ensures old(repo.failures) <= repo.failures
    ensures r.Err? ==> repo.failures > old(repo.failures) || repo.refs == map[]
    ensures repo.refs == map[] ==> r.Err?
  {
    hide Closure, CachedCommits, Unmapped;
    var previousHead := if q.usePreviousHead then s.head else None;
    var previousManifest := None;
    if previousHead.Some? && previousHead.value.generation in s.generations {
      previousManifest := Some(s.generations[previousHead.value.generation]);
    }
    var previousTips := if previousHead.Some? then previousHead.value.tips else [];
    var failed := repo.Fails();
    if failed {
      return Err(Unavailable);
    }

    var packed, incremental := MakePack(repo, previousManifest.Some? && previousTips != [], previousTips);
    if packed.Err? {
      return Err(packed.error);
    }
    var tips := PushUnique(if incremental then previousTips else [], q.commit);
    assert AsSet([]) == {};

    var key := packed.value;
    var packs := if incremental then previousManifest.value.packs else [];
    if !(exists i :: i in packs && i.key == key) {
      packs := packs + [PackInfo(key, if incremental then Delta else Base)];
    }
    var headRef := if repo.headRef.Some? && repo.headRef.value in repo.refs then repo.headRef else None;
    var commits := CollectCommits(s, repo, q.commit);
    var manifest := GenerationManifest(q.now, packs, repo.refs, headRef, commits);
    var branch := if q.branch.Some? then Some(RefManifest(q.branch.value, q.commit, q.id, q.now)) else None;
    var default := if q.defaultBranch then Some(RefManifest("HEAD", q.commit, q.id, q.now)) else None;
    return Ok(Plan(q.id, incremental, key, manifest, Head(q.id, tips, q.now), branch, default, q.now));
  }

  function Entries(p: Plan, commits: seq<ObjectId>): map<ObjectId, CommitManifest> {
    map c | c in commits :: CommitManifest(p.id, true, p.now)
  }

  /** Pack, generation manifest and commit manifests. */
  function WithPackFiles(s: State, p: Plan): State {
    s.(packs := if p.key in s.packs then s.packs else s.packs[p.key := p.now],
       generations := s.generations[p.id := p.manifest],
       commits := s.commits + Entries(p, p.manifest.commits))
  }

  function WithBranch(s: State, p: Plan): State {
    if p.branch.Some? then Applied(Applied(s, PutObservation(p.branch.value)), PutRef(p.branch.value)) else s
  }

  /** The store after a publish that wrote everything, but for the head. */
  function PublishedState(s: State, p: Plan): State {
    var t := WithBranch(WithPackFiles(s, p), p);
    if p.default.Some? then WithDefault(t, p.default.value) else t
  }

  lemma NextEntry(base: map<ObjectId, CommitManifest>, p: Plan, n: nat)
    requires n < |p.manifest.commits|
    ensures base + Entries(p, p.manifest.commits[..n + 1])
            == (base + Entries(p, p.manifest.commits[..n]))[p.manifest.commits[n] := CommitManifest(p.id, true, p.now)]
  {
    var c, m := p.manifest.commits[n], CommitManifest(p.id, true, p.now);
    assert p.manifest.commits[..n + 1] == p.manifest.commits[..n] + [c];
    var few, more := Entries(p, p.manifest.commits[..n]), Entries(p, p.manifest.commits[..n] + [c]);
    assert more == few[c := m];
    hide Entries;
    assert base + few[c := m] == (base + few)[c := m];
  }

  lemma FirstEntry(base: map<ObjectId, CommitManifest>, p: Plan)
    ensures base + Entries(p, p.manifest.commits[..0]) == base
    ensures p.manifest.commits[..|p.manifest.commits|] == p.manifest.commits
  {
  }

  // -------------------------------------------------------- the writes of a publish

  function CommitScript(p: Plan): seq<Write> {
    seq(|p.manifest.commits|, i requires 0 <= i < |p.manifest.commits| =>
      PutCommit(p.manifest.commits[i], CommitManifest(p.id, true, p.now)))
  }

  function BranchScript(b: Option<RefManifest>): seq<Write> {
    if b.Some? then [PutObservation(b.value), PutRef(b.value)] else []
  }

  function PackScript(s: State, p: Plan): seq<Write> {
    if p.key in s.packs then [] else [PutPack(p.key, p.now)]
  }

  function PackFilesScript(s: State, p: Plan): seq<Write> {
    PackScript(s, p) + [PutGeneration(p.id, p.manifest)] + CommitScript(p) + BranchScript(p.branch)
  }

  /** Every write of a publish, in order. */
  function PublishScript(s: State, p: Plan): seq<Write> {
    PackFilesScript(s, p) + FinishScript(s, p.head, p.default)
  }

  lemma {:induction false} CommitWrites(s: State, p: Plan, n: nat)
    requires n <= |p.manifest.commits|
    ensures AfterWrites(s, CommitScript(p)[..n]) == s.(commits := s.commits + Entries(p, p.manifest.commits[..n]))
    decreases n
  {
    hide Entries;
    if n == 0 {
      FirstEntry(s.commits, p);
      assert CommitScript(p)[..0] == [];
    } else {
      CommitWrites(s, p, n - 1);
      NextEntry(s.commits, p, n - 1);
      assert CommitScript(p)[..n] == CommitScript(p)[..n - 1] + [CommitScript(p)[n - 1]];
      AfterOneMore(s, CommitScript(p)[..n - 1], CommitScript(p)[n - 1]);
    }
  }

  lemma CommitsReached(s: State, p: Plan, n: nat)
    requires n <= |p.manifest.commits|
    ensures Reached(false, s, CommitScript(p), s.(commits := s.commits + Entries(p, p.manifest.commits[..n])))
    ensures n == |p.manifest.commits| ==>
              AfterWrites(s, CommitScript(p)) == s.(commits := s.commits + Entries(p, p.manifest.commits))
  {
    hide Entries, AfterWrites;
    CommitWrites(s, p, n);
    ReachedAt(false, s, CommitScript(p), n, s.(commits := s.commits + Entries(p, p.manifest.commits[..n])));
    assert CommitScript(p)[..|p.manifest.commits|] == CommitScript(p);
    FirstEntry(s.commits, p);
  }

  lemma BranchWrites(s: State, b: RefManifest)
    ensures Reached(false, s, BranchScript(Some(b)), s)
    ensures Reached(false, s, BranchScript(Some(b)), Applied(s, PutObservation(b)))
    ensures Reached(false, s, BranchScript(Some(b)), Applied(Applied(s, PutObservation(b)), PutRef(b)))
    ensures AfterWrites(s, BranchScript(Some(b))) == Applied(Applied(s, PutObservation(b)), PutRef(b))
  {
    var ws := BranchScript(Some(b));
    assert ws[..1] == [PutObservation(b)] && [PutObservation(b)][..0] == [] && ws == [PutObservation(b)] + [PutRef(b)];
    AfterOneMore(s, [], PutObservation(b));
    AfterOneMore(s, [PutObservation(b)], PutRef(b));
    assert [] + [PutObservation(b)] == [PutObservation(b)];
    hide AfterWrites, Applied;
    ReachedEnds(false, s, ws);
    ReachedAt(false, s, ws, 1, Applied(s, PutObservation(b)));
  }

  /** The store once the pack and the generation manifest are in place. */
  function WithManifest(s: State, p: Plan): State {
    Applied(if p.key in s.packs then s else Applied(s, PutPack(p.key, p.now)), PutGeneration(p.id, p.manifest))
  }

  lemma ManifestWrites(s: State, p: Plan)
    ensures AfterWrites(s, PackScript(s, p)) == if p.key in s.packs then s else Applied(s, PutPack(p.key, p.now))
    ensures AfterWrites(s, PackScript(s, p) + [PutGeneration(p.id, p.manifest)]) == WithManifest(s, p)
    ensures Reached(false, s, PackScript(s, p), s)
  {
    AfterOneMore(s, [], PutPack(p.key, p.now));
    assert [] + [PutPack(p.key, p.now)] == [PutPack(p.key, p.now)];
    AfterOneMore(s, PackScript(s, p), PutGeneration(p.id, p.manifest));
    ReachedEnds(false, s, PackScript(s, p));
  }

  /** Wherever the writes up to the branch stop, they stop within their script. */
  lemma PackFilesReached(s: State, p: Plan, t: State)
    requires var u := WithManifest(s, p);
             || t == s || t == AfterWrites(s, PackScript(s, p))
             || Reached(false, u, CommitScript(p), t)
             || Reached(false, AfterWrites(u, CommitScript(p)), BranchScript(p.branch), t)
    ensures Reached(false, s, PackFilesScript(s, p), t)
  {
    hide AfterWrites, Reached, CommitScript, BranchScript, WithManifest;
    var a, b, c, d := PackScript(s, p), [PutGeneration(p.id, p.manifest)], CommitScript(p), BranchScript(p.branch);
    ManifestWrites(s, p);
    if t == s || t == AfterWrites(s, a) {
      ReachedEnds(false, s, a);
      ReachedWithin(false, false, s, a, b, t);
      ReachedWithin(false, false, s, a + b, c, t);
      ReachedWithin(false, false, s, a + b + c, d, t);
    } else if Reached(false, WithManifest(s, p), c, t) {
      ReachedBeyond(false, s, a + b, c, t);
      ReachedWithin(false, false, s, a + b + c, d, t);
    } else {
      AfterBoth(s, a + b, c);
      ReachedBeyond(false, s, a + b + c, d, t);
    }
  }

  lemma PackFilesDone(s: State, p: Plan)
    ensures AfterWrites(s, PackFilesScript(s, p)) == WithBranch(WithPackFiles(s, p), p)
  {
    var a, b, c, d := PackScript(s, p), [PutGeneration(p.id, p.manifest)], CommitScript(p), BranchScript(p.branch);
    PackFilesState(s, p);
    hide AfterWrites, CommitScript, Entries, WithPackFiles, WithBranch;
    ManifestWrites(s, p);
    AfterBoth(s, a + b, c);
    CommitsReached(WithManifest(s, p), p, |p.manifest.commits|);
    var u := WithPackFiles(s, p);
    assert AfterWrites(s, a + b + c) == u;
    AfterBoth(s, a + b + c, d);
    if p.branch.Some? {
      BranchWrites(u, p.branch.value);
    } else {
      AfterOneMore(u, [], PutGeneration(p.id, p.manifest));
    }
  }

  lemma HeadDone(u: State, h: Head)
    ensures AfterWrites(u, HeadScript(u.head, h)) == u.(head := Some(HeadAfter(u.head, h)))
  {
    AfterOneMore(u, [], PutHead(h));
    assert [] + [PutHead(h)] == [PutHead(h)];
  }

  lemma FinishDone(s: State, h: Head, default: Option<RefManifest>)
    ensures AfterWrites(s, FinishScript(s, h, default))
            == (if default.Some? then WithDefault(s, default.value) else s).(head := Some(HeadAfter(s.head, h)))
  {
    var u := if default.Some? then WithDefault(s, default.value) else s;
    assert u.head == s.head;
    if default.Some? {
      DefaultWrites(s, default.value);
    }
    assert AfterWrites(s, DefaultScript(default)) == u;
    hide AfterWrites, WithDefault, HeadScript;
    AfterBoth(s, DefaultScript(default), HeadScript(s.head, h));
    HeadDone(u, h);
  }

  /** All the writes of a publish make the published state with the newer head. */
  lemma PublishDone(s: State, p: Plan)
    ensures AfterWrites(s, PublishScript(s, p)) == PublishedState(s, p).(head := Some(HeadAfter(s.head, p.head)))
  {
    var t := WithBranch(WithPackFiles(s, p), p);
    PackFilesDone(s, p);
    AfterBoth(s, PackFilesScript(s, p), FinishScript(s, p.head, p.default));
    HeadUntouched(s, p);
    hide AfterWrites, WithPackFiles, WithBranch;
    FinishDone(t, p.head, p.default);
  }

  lemma HeadUntouched(s: State, p: Plan)
    ensures WithBranch(WithPackFiles(s, p), p).head == s.head
    ensures FinishScript(s, p.head, p.default) == FinishScript(WithBranch(WithPackFiles(s, p), p), p.head, p.default)
  {
  }

  lemma UsableDepends(s: State, t: State, id: GenerationId)
    requires s.packs == t.packs && s.generations == t.generations
    ensures Usable(s, id) == Usable(t, id)
  {
  }

  /** A commit to be published already has a different manifest. */
  predicate CommitsConflict(s: State, p: Plan) {
    exists c :: c in p.manifest.commits && c in s.commits && s.commits[c] != CommitManifest(p.id, true, p.now)
  }

  lemma ConflictSeen(s: State, p: Plan, n: nat)
    requires n < |p.manifest.commits|
    requires var c, t := p.manifest.commits[n], s.commits + Entries(p, p.manifest.commits[..n]);
             c in t && t[c] != CommitManifest(p.id, true, p.now)
    ensures CommitsConflict(s, p)
  {
    var c := p.manifest.commits[n];
    assert c in p.manifest.commits;
  }

  /** An observation of the branch under this id already has different contents. */
  predicate BranchConflict(s: State, b: RefManifest) {
    (b.refName, b.generation) in s.observations && s.observations[(b.refName, b.generation)] != b
  }

  method PublishCommits(store: ObjectStore, p: Plan, ghost g: Graph) returns (r: Result<(), Error>)
    requires p.id in store.state.generations && store.state.generations[p.id] == p.manifest
    modifies store
    ensures r.Ok? ==> store.state == old(store.state).(commits := old(store.state).commits + Entries(p, p.manifest.commits))
    ensures store.state == old(store.state).(commits := store.state.commits)
    ensures Reached(false, old(store.state), CommitScript(p), store.state)
    ensures store.faults == old(store.faults) + if r == Err(Unavailable) then 1 else 0
    ensures r.Err? && r != Err(Unavailable) ==> r == Err(Conflict) && CommitsConflict(old(store.state), p)
    ensures Kept(g, old(store.state), store.state, Usable(old(store.state), p.id), SelfContained(g, p.manifest))
  {
    hide Kept, Closed, Entries, Usable, Integrity, Covered, Reached, CommitScript;
    ghost var s := store.state;
    FirstEntry(s.commits, p);
    KeptStart(g, s, Usable(s, p.id), SelfContained(g, p.manifest));
    for n := 0 to |p.manifest.commits|
      invariant store.state == s.(commits := s.commits + Entries(p, p.manifest.commits[..n]))
      invariant store.faults == old(store.faults)
      invariant Kept(g, s, store.state, Usable(s, p.id), SelfContained(g, p.manifest))
    {
      var c := p.manifest.commits[n];
      NextEntry(s.commits, p, n);
      ghost var before := store.state;
      UsableDepends(s, before, p.id);
      r := WriteCommitIfAbsentOrMatches(store, c, CommitManifest(p.id, true, p.now), g);
      KeptThen(g, s, before, store.state, Usable(s, p.id), SelfContained(g, p.manifest),
               Usable(before, p.id), c in ObjectsOf(before, p.id));
      if r.Err? {
        CommitsReached(s, p, n);
        if r == Err(Conflict) {
          ConflictSeen(s, p, n);
        }
        return;
      }
    }
    CommitsReached(s, p, |p.manifest.commits|);
    return Ok(());
  }

  method PublishBranch(store: ObjectStore, b: RefManifest, ghost g: Graph) returns (r: Result<(), Error>)
    modifies store
    ensures r.Ok? ==> store.state == Applied(Applied(old(store.state), PutObservation(b)), PutRef(b))
    ensures Reached(false, old(store.state), BranchScript(Some(b)), store.state)
    ensures store.faults == old(store.faults) + if r == Err(Unavailable) then 1 else 0
    ensures r.Err? && r != Err(Unavailable) ==> r == Err(Conflict) && BranchConflict(old(store.state), b)
    ensures Kept(g, old(store.state), store.state, Usable(old(store.state), b.generation), true)
  {
    hide Integrity, Covered, Closed, Reached, BranchScript;
    BranchWrites(store.state, b);
    if (b.refName, b.generation) in store.state.observations {
      if store.state.observations[(b.refName, b.generation)] != b {
        return Err(Conflict);
      }
      assert store.state.observations[(b.refName, b.generation) := b] == store.state.observations;
    } else {
      var ok := store.Perform(PutObservation(b), g);
      if !ok {
        return Err(Unavailable);
      }
    }
    var ok := store.Perform(PutRef(b), g);
    return if ok then Ok(()) else Err(Unavailable);
  }

  /** Something that must not be overwritten is stored under an id of the plan. */
  predicate PlanConflicts(s: State, p: Plan) {
    || (p.id in s.generations && s.generations[p.id] != p.manifest)
    || CommitsConflict(s, p)
    || (p.branch.Some? && BranchConflict(s, p.branch.value))
  }

  /** The pack, then its manifest. */
  method PublishManifest(store: ObjectStore, p: Plan, ghost g: Graph) returns (r: Result<(), Error>)
    requires p.manifest.PackKeys() <= store.state.packs.Keys + {p.key}
    modifies store
    ensures r.Ok? ==> store.state == WithManifest(old(store.state), p) && Usable(store.state, p.id)
    ensures r.Err? ==> store.state == old(store.state)
                       || store.state == AfterWrites(old(store.state), PackScript(old(store.state), p))
    ensures store.faults == old(store.faults) + if r == Err(Unavailable) then 1 else 0
    ensures r.Err? && r != Err(Unavailable) ==>
              r == Err(Conflict) && p.id in old(store.state).generations && old(store.state).generations[p.id] != p.manifest
    ensures Kept(g, old(store.state), store.state, true, SelfContained(g, p.manifest))
  {
    hide Kept, Integrity, Covered, SelfContained, AfterWrites, PackScript;
    ghost var s := store.state;
    KeptStart(g, s, true, SelfContained(g, p.manifest));
    ManifestWrites(s, p);
    if p.key !in store.state.packs {
      var ok := store.Perform(PutPack(p.key, p.now), g);
      if !ok {
        return Err(Unavailable);
      }
    }
    ghost var t := store.state;
    KeptThen(g, s, s, t, true, SelfContained(g, p.manifest), true, true);
    r := WriteGenerationIfAbsentOrMatches(store, p.id, p.manifest, g);
    KeptThen(g, s, t, store.state, true, SelfContained(g, p.manifest),
             p.manifest.PackKeys() <= t.packs.Keys, SelfContained(g, p.manifest));
  }

  /** The pack, its manifest, the commit manifests, then the branch: each only once what it names is stored. */
  method PublishPackFiles(store: ObjectStore, p: Plan, ghost g: Graph) returns (r: Result<(), Error>)
    requires p.manifest.PackKeys() <= store.state.packs.Keys + {p.key}
    requires p.branch.Some? ==> p.branch.value.generation == p.id
    modifies store
    ensures r.Ok? ==> store.state == WithBranch(WithPackFiles(old(store.state), p), p)
    ensures Reached(false, old(store.state), PackFilesScript(old(store.state), p), store.state)
    ensures store.faults == old(store.faults) + if r == Err(Unavailable) then 1 else 0
    ensures r.Err? && r != Err(Unavailable) ==> r == Err(Conflict) && PlanConflicts(old(store.state), p)
    ensures Kept(g, old(store.state), store.state, true, SelfContained(g, p.manifest))
    ensures r.Ok? ==> Usable(store.state, p.id)
  {
    hide Kept, Integrity, Covered, SelfContained, WithPackFiles, WithBranch, Reached, AfterWrites, PackFilesScript, CommitScript,
         PackScript, Usable, Entries, CommitsConflict, BranchScript, BranchConflict,
         PlanConflicts;
    ghost var s := store.state;
    ghost var whole := SelfContained(g, p.manifest);
    PackFilesState(s, p);
    r := PublishManifest(store, p, g);
    ghost var t := store.state;
    if r.Err? {
      PackFilesReached(s, p, t);
      if r == Err(Conflict) {
        ConflictsFound(s, s, p);
      }
      return;
    }
    r := PublishCommits(store, p, g);
    ghost var u := store.state;
    if r == Err(Conflict) {
      ConflictsFound(s, t, p);
    }
    PackFilesReached(s, p, u);
    KeptThen(g, s, t, u, true, whole, Usable(t, p.id), whole);
    UsableDepends(t, u, p.id);
    if r.Err? || p.branch.None? {
      return;
    }
    CommitsReached(t, p, |p.manifest.commits|);
    r := PublishBranch(store, p.branch.value, g);
    PackFilesReached(s, p, store.state);
    KeptThen(g, s, u, store.state, true, whole, Usable(u, p.id), true);
    if r == Err(Conflict) {
      ConflictsFound(s, u, p);
    }
    if r.Ok? {
      UsableDepends(u, store.state, p.id);
    }
  }

  lemma ConflictsFound(s: State, t: State, p: Plan)
    requires || (p.id in s.generations && s.generations[p.id] != p.manifest)
             || (t.commits == s.commits && CommitsConflict(t, p))
             || (t.observations == s.observations && p.branch.Some? && BranchConflict(t, p.branch.value))
    ensures PlanConflicts(s, p)
  {
  }

  /** Nothing is in the way of fresh ids. */
  lemma FreshPlanIsFree(g: Graph, s: State, refs: map<RefName, ObjectId>, cached: set<ObjectId>, q: Request, p: Plan)
    requires Planned(g, s, refs, cached, q, p)
    requires q.id !in s.generations && q.commit !in s.commits
    requires q.branch.Some? ==> (q.branch.value, q.id) !in s.observations
    ensures !PlanConflicts(s, p)
  {
    forall c | c in p.manifest.commits
      ensures c !in s.commits
    {
      assert c in AsSet(p.manifest.commits);
    }
  }

  lemma PackFilesState(s: State, p: Plan)
    ensures var t := Applied(if p.key in s.packs then s else Applied(s, PutPack(p.key, p.now)),
                             PutGeneration(p.id, p.manifest));
            WithPackFiles(s, p) == t.(commits := t.commits + Entries(p, p.manifest.commits))
    ensures var t := WithPackFiles(s, p);
            WithBranch(t, p) == if p.branch.None? then t
                                else Applied(Applied(t, PutObservation(p.branch.value)), PutRef(p.branch.value))
  {
  }

  /** A commit that a complete manifest already maps is not published again. */
  predicate AlreadyPublished(s: State, c: ObjectId) {
    c in s.commits && s.commits[c].complete
  }

  /** The ref manifests that an already published commit still gets. */
  function Reannounced(s: State, q: Request): State
    requires q.commit in s.commits
  {
    var id := s.commits[q.commit].generation;
    var t := if q.branch.Some? then Applied(s, PutRef(RefManifest(q.branch.value, q.commit, id, q.now))) else s;
    if q.defaultBranch then WithDefault(t, RefManifest("HEAD", q.commit, id, q.now)) else t
  }

  function ReannounceScript(s: State, q: Request): seq<Write>
    requires q.commit in s.commits
  {
    var id := s.commits[q.commit].generation;
    (if q.branch.Some? then [PutRef(RefManifest(q.branch.value, q.commit, id, q.now))] else [])
    + DefaultScript(if q.defaultBranch then Some(RefManifest("HEAD", q.commit, id, q.now)) else None)
  }

  lemma ReannounceReached(s: State, q: Request, t: State)
    requires q.commit in s.commits
    requires var id := s.commits[q.commit].generation;
             var u := if q.branch.Some? then Applied(s, PutRef(RefManifest(q.branch.value, q.commit, id, q.now))) else s;
             t == s || t == u || (q.defaultBranch && Reached(false, u, DefaultScript(Some(RefManifest("HEAD", q.commit, id, q.now))), t))
    ensures Reached(false, s, ReannounceScript(s, q), t)
  {
    hide Applied, Reached;
    var id := s.commits[q.commit].generation;
    var w := PutRef(RefManifest(if q.branch.Some? then q.branch.value else "", q.commit, id, q.now));
    var a := if q.branch.Some? then [w] else [];
    var b := DefaultScript(if q.defaultBranch then Some(RefManifest("HEAD", q.commit, id, q.now)) else None);
    AfterOneMore(s, [], w);
    assert [] + [w] == [w];
    ReachedEnds(false, s, a);
    if t == s || t == AfterWrites(s, a) {
      ReachedWithin(false, false, s, a, b, t);
    } else {
      ReachedBeyond(false, s, a, b, t);
    }
  }

  lemma MappedIsUsable(s: State, c: ObjectId)
    requires Integrity(s) && c in s.commits
    ensures Usable(s, s.commits[c].generation)
  {
  }

  /** What a finished publish has stored under the ids it names. */
  lemma WrittenByPublish(s: State, p: Plan)
    ensures var t := WithBranch(WithPackFiles(s, p), p);
            && t.head == s.head && p.id in t.generations && t.generations[p.id] == p.manifest
            && forall c | c in p.manifest.commits :: c in t.commits && t.commits[c] == CommitManifest(p.id, true, p.now)
  {
  }

  method Reannounce(store: ObjectStore, q: Request, ghost g: Graph) returns (r: Result<GenerationId, Error>)
    requires AlreadyPublished(store.state, q.commit) && Integrity(store.state)
    modifies store
    ensures Kept(g, old(store.state), store.state, true, true)
    ensures Reached(false, old(store.state), ReannounceScript(old(store.state), q), store.state)
    ensures r.Err? ==> r == Err(Unavailable)
    ensures store.faults == old(store.faults) + if r == Err(Unavailable) then 1 else 0
    ensures r.Ok? ==> r.value == old(store.state).commits[q.commit].generation
                      && store.state == Reannounced(old(store.state), q)
    ensures store.state.packs == old(store.state).packs && store.state.generations == old(store.state).generations
    ensures store.state.commits == old(store.state).commits
  {
    hide Covered, Reached, AfterWrites, ReannounceScript;
    ghost var s := store.state;
    var id := store.state.commits[q.commit].generation;
    assert Usable(store.state, id);
    ReannounceReached(s, q, s);
    if q.branch.Some? {
      var ok := store.Perform(PutRef(RefManifest(q.branch.value, q.commit, id, q.now)), g);
      if !ok {
        return Err(Unavailable);
      }
    }
    ReannounceReached(s, q, store.state);
    if q.defaultBranch {
      var ok := WriteDefaultRef(store, RefManifest("HEAD", q.commit, id, q.now), g);
      ReannounceReached(s, q, store.state);
      if !ok {
        return Err(Unavailable);
      }
    }
    return Ok(id);
  }

  /** What makes the writes of a plan harmless, and covering when a ref reaches the commit. */
  lemma PlannedIsSafe(g: Graph, s: State, refs: map<RefName, ObjectId>, cached: set<ObjectId>, q: Request, p: Plan)
    requires Planned(g, s, refs, cached, q, p) && Integrity(s) && cached <= refs.Values
    ensures p.id == q.id && p.head.generation == p.id
    ensures p.branch.Some? ==> p.branch.value.generation == p.id
    ensures p.default.Some? ==> p.default.value.generation == p.id
    ensures p.manifest.PackKeys() <= s.packs.Keys + {p.key}
    ensures q.commit in p.manifest.commits
    ensures Covered(g, s) && q.commit in Closure(g, refs.Values) ==>
              SelfContained(g, p.manifest) && forall t | t in p.head.tips :: t in p.manifest.Objects()
  {
    PlannedKeys(g, s, refs, cached, q, p);
    assert p.delta ==> s.head.value.generation in Referenced(s) && Usable(s, s.head.value.generation);
    assert q.commit in AsSet(p.manifest.commits);
    if Covered(g, s) && q.commit in Closure(g, refs.Values) {
      PlannedGenerationIsSelfContained(g, s, refs, cached, q, p);
    }
  }

  /** Makes all the writes of a plan, or stops at one of them. */
  method CarryOut(store: ObjectStore, p: Plan, ghost reached: bool, ghost g: Graph) returns (r: Result<(), Error>)
    requires p.manifest.PackKeys() <= store.state.packs.Keys + {p.key} && p.head.generation == p.id
    requires p.branch.Some? ==> p.branch.value.generation == p.id
    requires p.default.Some? ==> p.default.value.generation == p.id
    requires Covered(g, store.state) && reached ==>
               SelfContained(g, p.manifest) && forall t | t in p.head.tips :: t in p.manifest.Objects()
    modifies store
    ensures store.faults == old(store.faults) + if r == Err(Unavailable) then 1 else 0
    ensures r.Err? && r != Err(Unavailable) ==> r == Err(Conflict) && PlanConflicts(old(store.state), p)
    ensures Reached(store.shared, old(store.state), PublishScript(old(store.state), p), store.state)
    ensures Kept(g, old(store.state), store.state, true, reached)
    ensures r.Ok? ==>
              && store.state == PublishedState(old(store.state), p).(head := store.state.head)
              && (!store.shared ==> store.state.head == Some(HeadAfter(old(store.state).head, p.head)))
              && Usable(store.state, p.id)
  {
    hide Kept, Closed, Covered, SelfContained, Closure, WithBranch, WithPackFiles, Integrity, Usable,
         Reached, AfterWrites, PackFilesScript, FinishScript, PlanConflicts, HeadAfter;
    ghost var s := store.state;
    KeptStart(g, s, true, reached);
    var published := PublishPackFiles(store, p, g);
    ghost var t := store.state;
    KeptThen(g, s, s, t, true, reached, true, SelfContained(g, p.manifest));
    ReachedWithin(false, store.shared, s, PackFilesScript(s, p), FinishScript(s, p.head, p.default), t);
    if published.Err? {
      return published;
    }
    WrittenByPublish(s, p);
    r := FinishPublish(store, p.head, p.default, g);
    PackFilesDone(s, p);
    HeadUntouched(s, p);
    ReachedBeyond(store.shared, s, PackFilesScript(s, p), FinishScript(s, p.head, p.default), store.state);
    KeptThen(g, s, t, store.state, true, reached, Usable(t, p.id), Usable(t, p.id) && TipsCovered(t, p.head));
    UsableDepends(t, store.state, p.id);
  }

  /**
    Publishes a commit.  Whatever happens, every name still leads to a
    generation that can be hydrated; and if a ref reaches the commit, every
    mapped commit is still in the packs it is mapped to.
  */
  method PublishGeneration(store: ObjectStore, repo: Repo, q: Request)
    returns (r: Result<GenerationId, Error>, ghost plan: Option<Plan>)
    requires Integrity(store.state)
    modifies store, repo`failures
    ensures Kept(repo.graph, old(store.state), store.state, true, q.commit in repo.Reachable())
    ensures old(store.faults) <= store.faults && old(repo.failures) <= repo.failures
    ensures plan.Some? ==>
              && (plan.value.delta <==> DeltaPossible(old(store.state), q) && repo.failures == old(repo.failures))
              && plan.value.manifest.headRef == ServedHead(repo.refs, repo.headRef)
    // Asked to build on a stored head with tips, and with packing working, it keeps the head's packs and tips in front.
    ensures plan.Some? && repo.failures == old(repo.failures) && q.usePreviousHead && old(store.state).head.Some? ==>
              var h := old(store.state).head.value;
              h.tips != [] && h.generation in old(store.state).generations ==>
                && plan.value.delta && h.tips <= plan.value.head.tips
                && old(store.state).generations[h.generation].packs <= plan.value.manifest.packs
    ensures r.Ok? ==> store.faults == old(store.faults)
    ensures r.Err? && store.faults == old(store.faults) && repo.failures == old(repo.failures) ==>
              && !AlreadyPublished(old(store.state), q.commit)
              && (repo.refs == map[] || (plan.Some? && PlanConflicts(old(store.state), plan.value)))
    ensures plan.Some? ==>
              && Planned(repo.graph, old(store.state), repo.refs, Cached(repo), q, plan.value)
              && Reached(store.shared, old(store.state), PublishScript(old(store.state), plan.value), store.state)
    ensures plan.None? && AlreadyPublished(old(store.state), q.commit) ==>
              Reached(false, old(store.state), ReannounceScript(old(store.state), q), store.state)
    ensures plan.None? && !AlreadyPublished(old(store.state), q.commit) ==> store.state == old(store.state)
    ensures AlreadyPublished(old(store.state), q.commit) ==> plan.None?
    ensures r.Ok? && AlreadyPublished(old(store.state), q.commit) ==>
              r.value == old(store.state).commits[q.commit].generation
              && store.state == Reannounced(old(store.state), q)
    ensures r.Ok? && !AlreadyPublished(old(store.state), q.commit) ==>
              && plan.Some? && Planned(repo.graph, old(store.state), repo.refs, Cached(repo), q, plan.value)
              && r.value == q.id
              && store.state == PublishedState(old(store.state), plan.value).(head := store.state.head)
              && (!store.shared ==> store.state.head == Some(HeadAfter(old(store.state).head, plan.value.head)))
    ensures r.Ok? ==> AlreadyPublished(store.state, q.commit) && store.state.commits[q.commit].generation == r.value
                      && Usable(store.state, r.value)
  {
    hide Kept, Closed, Reannounced, Planned, Covered, SelfContained, Closure, WithBranch, WithPackFiles, Integrity,
         Reached, AfterWrites, PackFilesScript, FinishScript, ReannounceScript, PlanConflicts, DeltaPossible,
         HeadAfter, ServedHead, CachedCommits, CommitsOf;
    ghost var g := repo.graph;
    plan := None;
    var s := store.state;
    KeptStart(g, s, true, q.commit in repo.Reachable());
    if q.commit in store.state.commits && store.state.commits[q.commit].complete {
      MappedIsUsable(s, q.commit);
      r := Reannounce(store, q, g);
      KeptThen(g, s, s, store.state, true, q.commit in repo.Reachable(), true, true);
      return r, plan;
    }

    var made := MakePlan(s, repo, q);
    if made.Err? {
      return Err(made.error), plan;
    }
    var p := made.value;
    plan := Some(p);
    CachedIsReferred(repo.refs);
    BuildsOnHead(g, s, repo.refs, Cached(repo), q, p);
    PlannedIsSafe(g, s, repo.refs, Cached(repo), q, p);
    WrittenByPublish(s, p);
    var carried := CarryOut(store, p, q.commit in repo.Reachable(), g);
    if carried.Err? {
      return Err(carried.error), plan;
    }
    return Ok(p.id), plan;
  }

  // -------------------------------------------------------------------- index

  /** A tip through which a commit may be mapped: its own complete manifest leads to the generation. */
  ghost predicate Leads(g: Graph, s: State, commit: ObjectId, tip: ObjectId, id: GenerationId) {
    AlreadyPublished(s, tip) && s.commits[tip].generation == id && commit in Closure(g, {tip})
  }

  /** An ancestor of a covered tip is covered by the tip's generation. */
  lemma AncestorIsCovered(g: Graph, s: State, commit: ObjectId, tip: ObjectId, id: GenerationId)
    requires Integrity(s) && Covered(g, s) && Leads(g, s, commit, tip, id)
    ensures commit in ObjectsOf(s, id)
  {
    assert Usable(s, id);
    ClosureIsLeast(g, {tip}, ObjectsOf(s, id));
  }

  method IndexLocalCommit(store: ObjectStore, repo: Repo, commit: ObjectId, ghost tip: ObjectId, id: GenerationId, now: Time)
    returns (ok: bool)
    requires Integrity(store.state) && Leads(repo.graph, store.state, commit, tip, id)
    modifies store
    ensures Kept(repo.graph, old(store.state), store.state, true, true)
    ensures store.state == if ok then Applied(old(store.state), PutCommit(commit, CommitManifest(id, true, now)))
                           else old(store.state)
    ensures store.faults == old(store.faults) + if ok then 0 else 1
  {
    MappedIsUsable(store.state, tip);
    if Covered(repo.graph, store.state) {
      AncestorIsCovered(repo.graph, store.state, commit, tip, id);
    }
    ok := store.Perform(PutCommit(commit, CommitManifest(id, true, now)), repo.graph);
  }

  method IndexIfAncestorOfTip(store: ObjectStore, repo: Repo, commit: ObjectId, tip: ObjectId, id: GenerationId, now: Time)
    returns (r: Result<bool, Error>)
    requires Integrity(store.state)
    modifies store, repo`failures, repo`gaps
    ensures store.faults + repo.failures == old(store.faults + repo.failures) + if r.Ok? then 0 else 1
    ensures old(repo.gaps) <= repo.gaps
    ensures r == Ok(false) && repo.gaps == old(repo.gaps) ==> !Leads(repo.graph, old(store.state), commit, tip, id)
    ensures Kept(repo.graph, old(store.state), store.state, true, true)
    ensures r == Ok(true) ==>
              && Leads(repo.graph, old(store.state), commit, tip, id)
              && store.state == Applied(old(store.state), PutCommit(commit, CommitManifest(id, true, now)))
    ensures r != Ok(true) ==> store.state == old(store.state)
  {
    if tip !in store.state.commits {
      return Ok(false);
    }
    if !store.state.commits[tip].complete || store.state.commits[tip].generation != id {
      return Ok(false);
    }
    var present := repo.CommitExists(tip);
    if !present {
      return Ok(false);
    }
    var ancestor := repo.IsAncestor(commit, tip);
    if ancestor != Ok(true) {
      return ancestor;
    }
    var ok := IndexLocalCommit(store, repo, commit, tip, id, now);
    return if ok then Ok(true) else Err(Unavailable);
  }

  ghost predicate NoTipLeads(g: Graph, s: State, commit: ObjectId)
    requires s.head.Some?
  {
    forall tip | tip in s.head.value.tips :: !Leads(g, s, commit, tip, s.head.value.generation)
  }

  lemma TipLeads(g: Graph, s: State, commit: ObjectId, tip: ObjectId)
    requires AlreadyPublished(s, tip) && commit in Closure(g, {tip})
    ensures Leads(g, s, commit, tip, s.commits[tip].generation)
  {
  }

  /** No head tip and no tip of a cached ref is published with history that has the commit. */
  ghost predicate NothingLeads(g: Graph, s: State, cached: set<ObjectId>, commit: ObjectId)
    requires s.head.Some?
  {
    && NoTipLeads(g, s, commit)
    && (forall tip | tip in cached && tip !in s.head.value.tips && AlreadyPublished(s, tip) :: commit !in Closure(g, {tip}))
  }

  /**
    Maps a locally present commit to a generation already known to hold it: the
    head's, through one of the head tips, or else that of a cached ref's tip.
    A mapping is only ever written on the strength of a complete manifest of
    a tip that reaches the commit, so it never promises more than is stored.
  */
  method IndexFromKnownGeneration(store: ObjectStore, repo: Repo, commit: ObjectId, now: Time)
    returns (r: Result<Option<GenerationId>, Error>, ghost through: Option<ObjectId>)
    requires Integrity(store.state)
    modifies store, repo`failures, repo`gaps
    ensures store.faults + repo.failures == old(store.faults + repo.failures) + if r.Ok? then 0 else 1
    ensures old(repo.gaps) <= repo.gaps
    ensures r == Ok(None) && old(store.state).head.Some? && repo.gaps == old(repo.gaps) ==>
              NothingLeads(repo.graph, old(store.state), Cached(repo), commit)
    ensures Kept(repo.graph, old(store.state), store.state, true, true)
    ensures r.Ok? && r.value.Some? ==>
              && through.Some? && Leads(repo.graph, old(store.state), commit, through.value, r.value.value)
              && store.state == Applied(old(store.state), PutCommit(commit, CommitManifest(r.value.value, true, now)))
    ensures !(r.Ok? && r.value.Some?) ==> store.state == old(store.state)
    ensures r.Ok? && r.value.Some? ==> old(store.state).head.Some?
    ensures old(store.state).head.None? ==> r == Ok(None)
    ensures r.Ok? && r.value.Some? && repo.gaps == old(repo.gaps) ==>
              if through.value in old(store.state).head.value.tips then r.value.value == old(store.state).head.value.generation
              else NoTipLeads(repo.graph, old(store.state), commit)
  {
    hide Leads, Integrity, Closure, Kept;
    ghost var s := store.state;
    KeptStart(repo.graph, s, true, true);
    through := None;
    if store.state.head.None? {
      return Ok(None), through;
    }
    var head := store.state.head.value;
    var checked: seq<ObjectId> := [];
    var i := |head.tips|;
    while i > 0
      invariant 0 <= i <= |head.tips|
      invariant store.state == s && store.faults + repo.failures == old(store.faults + repo.failures) && old(repo.gaps) <= repo.gaps
      invariant forall x :: x in checked <==> x in head.tips[i..]
      invariant repo.gaps == old(repo.gaps) ==>
                  forall k | i <= k < |head.tips| :: !Leads(repo.graph, s, commit, head.tips[k], head.generation)
    {
      i := i - 1;
      var tip := head.tips[i];
      checked := PushUnique(checked, tip);
      var indexed := IndexIfAncestorOfTip(store, repo, commit, tip, head.generation, now);
      if indexed.Err? {
        return Err(indexed.error), through;
      }
      if indexed.value {
        return Ok(Some(head.generation)), Some(tip);
      }
    }

    assert repo.gaps == old(repo.gaps) ==> NoTipLeads(repo.graph, s, commit);
    var candidates := repo.RefsContaining(commit);
    if candidates.Err? {
      return Err(candidates.error), through;
    }
    for j := 0 to |candidates.value|
      invariant store.state == s && store.faults + repo.failures == old(store.faults + repo.failures)
      invariant forall x | x in checked :: x in head.tips || !AlreadyPublished(s, x)
      invariant forall x | x in head.tips :: x in checked
      invariant forall k | 0 <= k < j :: candidates.value[k] in head.tips || !AlreadyPublished(s, candidates.value[k])
    {
      var tip := candidates.value[j];
      if tip in checked {
        continue;
      }
      checked := PushUnique(checked, tip);
      if tip !in store.state.commits || !store.state.commits[tip].complete {
        continue;
      }
      var id := store.state.commits[tip].generation;
      TipLeads(repo.graph, s, commit, tip);
      var ok := IndexLocalCommit(store, repo, commit, tip, id, now);
      if !ok {
        return Err(Unavailable), through;
      }
      return Ok(Some(id)), Some(tip);
    }
    return Ok(None), through;
  }
}
