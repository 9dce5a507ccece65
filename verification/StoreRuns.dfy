/**
  Whole runs over the object store: any sequence of publishes, indexings,
  compactions and sweeps, each of which may stop after any of its writes, with
  the local refs changing freely in between.
*/
module StoreRuns {
  import opened Wrappers
  import opened ObjectGraph
  import opened StoreState
  import opened LocalRepo
  import opened GenerationStore
  import opened Retention
  import opened Compaction

  datatype Op =
    | Fetch(refs: map<RefName, ObjectId>, headRef: Option<RefName>)
    | Publish(request: Request)
    | Index(commit: ObjectId, at: Time)
    | Compact(threshold: nat, dryRun: bool, id: GenerationId, now: Time)
    | Sweep(cutoff: Time)

  /** What a caller can check beforehand so that an operation cannot lose coverage. */
  ghost predicate Cautious(g: Graph, op: Op, s: State, refs: map<RefName, ObjectId>) {
    match op
    case Fetch(_, _) => true
    case Publish(q) => q.commit in Closure(g, refs.Values)
    case Index(_, _) => true
    case Compact(_, _, _, _) => ReachesAll(s, Closure(g, HydratedRefs(s, refs).Values))
    case Sweep(cutoff) => s.head.Some? ==> HeadTakesOver(s, cutoff)
  }

  // ------------------------------------------------------ what one operation does

  /** A publish by this plan stopped within its writes; when done, it made them all and offered its head. */
  ghost predicate PlanTaken(
    g: Graph, shared: bool, s: State, refs: map<RefName, ObjectId>, q: Request, p: Plan, t: State, done: bool)
  {
    && Planned(g, s, refs, CachedCommits(refs), q, p)
    && Reached(shared, s, PublishScript(s, p), t)
    && (done ==> t == PublishedState(s, p).(head := t.head) && (!shared ==> t.head == Some(HeadAfter(s.head, p.head))))
  }

  ghost predicate PublishOutcome(
    g: Graph, shared: bool, s: State, refs: map<RefName, ObjectId>, q: Request, t: State, done: bool)
  {
    if AlreadyPublished(s, q.commit) then Reached(false, s, ReannounceScript(s, q), t) && (done ==> t == Reannounced(s, q))
    else (t == s && !done) || exists p :: PlanTaken(g, shared, s, refs, q, p, t, done)
  }

  /** A commit is mapped on the strength of a tip that reaches it, or nothing happens. */
  ghost predicate IndexOutcome(g: Graph, s: State, commit: ObjectId, at: Time, t: State, done: bool) {
    if done
    then exists tip, id :: Leads(g, s, commit, tip, id) && t == Applied(s, PutCommit(commit, CommitManifest(id, true, at)))
    else t == s
  }

  ghost predicate RepackTaken(
    shared: bool, s: State, id: GenerationId, now: Time, m: GenerationManifest,
    ck: seq<ObjectId>, rk: seq<RefName>, t: State, done: bool)
    requires s.head.Some?
  {
    && Lists(ck, s.commits.Keys) && Lists(rk, s.refs.Keys)
    && Reached(shared, s, CompactScript(s, m, id, now, ck, rk), t)
    && (done ==> t == Compacted(s, id, m, now) && t == AfterWrites(s, CompactScript(s, m, id, now, ck, rk)))
  }

  ghost predicate CompactOutcome(
    g: Graph, shared: bool, s: State, refs: map<RefName, ObjectId>, dryRun: bool, id: GenerationId, now: Time, t: State, done: bool)
  {
    || (t == s && !done)
    || (!dryRun && s.head.Some?
        && exists m, ck, rk :: Repacked(g, s, refs, now, m) && RepackTaken(shared, s, id, now, m, ck, rk, t, done))
  }

  ghost predicate SweepOutcome(s: State, cutoff: Time, t: State, done: bool) {
    if s.head.None? then t == s
    else
      && (exists order :: OrderFor(s, order) && Reached(false, s, SweepScript(s, cutoff, order), t)
                          && (done ==> t == AfterWrites(s, SweepScript(s, cutoff, order))))
      && (done ==> exists orphans :: orphans !! KeptPacks(s, Superseded(s, cutoff)) && t == Swept(s, cutoff, orphans))
  }

  /**
    What an operation may have done to the store and to the local refs.  It made
    an initial part of its own writes, in its own order, and all of them when it
    was done; in a shared store the head may be another publisher's.
  */
  ghost predicate Outcome(
    g: Graph, shared: bool, op: Op, s: State, refs: map<RefName, ObjectId>, t: State, refs': map<RefName, ObjectId>, done: bool)
  {
    match op
    case Fetch(fetched, _) => t == s && refs' == fetched && done
    case Publish(q) => refs' == refs && PublishOutcome(g, shared, s, refs, q, t, done)
    case Index(commit, at) => refs' == refs && IndexOutcome(g, s, commit, at, t, done)
    case Compact(_, dryRun, id, now) =>
      refs' in {refs, HydratedRefs(s, refs)} && CompactOutcome(g, shared, s, refs, dryRun, id, now, t, done)
    case Sweep(cutoff) => refs' == refs && SweepOutcome(s, cutoff, t, done)
  }

  /** What a caller can check beforehand so that an operation is carried out unless something fails. */
  ghost predicate Due(g: Graph, shared: bool, op: Op, s: State, refs: map<RefName, ObjectId>) {
    match op
    case Fetch(_, _) => true
    case Publish(q) => AlreadyPublished(s, q.commit) || (refs != map[] && FreshRequest(s, q))
    case Index(commit, _) => s.head.Some? && !NothingLeads(g, s, CachedCommits(refs), commit)
    case Compact(threshold, dryRun, id, _) =>
      && !shared && !dryRun && NeedsCompaction(s, threshold) && |s.generations| < MAX_SCAN_KEYS
      && HydratedRefs(s, refs) != map[] && id !in s.generations
    case Sweep(_) => |s.generations| < MAX_SCAN_KEYS
  }

  /** Nothing is stored under the ids that a publish will use. */
  predicate FreshRequest(s: State, q: Request) {
    && q.id !in s.generations && q.commit !in s.commits
    && (q.branch.Some? ==> (q.branch.value, q.id) !in s.observations)
  }

  /** An operation during which no request and no command failed: what was due is done, and a delta is made wherever one can be. */
  ghost predicate Smooth(
    g: Graph, shared: bool, op: Op, s: State, refs: map<RefName, ObjectId>, t: State, done: bool)
  {
    && (Due(g, shared, op, s, refs) ==> done)
    && (op.Publish? && done && !AlreadyPublished(s, op.request.commit) ==>
          exists p :: PlanTaken(g, shared, s, refs, op.request, p, t, true) && (p.delta <==> DeltaPossible(s, op.request)))
  }

  /** What has failed or fallen short so far. */
  ghost function Trouble(store: ObjectStore, repo: Repo): nat
    reads store, repo
  {
    store.faults + repo.failures + repo.gaps
  }

  method PerformPublish(store: ObjectStore, repo: Repo, q: Request) returns (done: bool)
    requires Integrity(store.state)
    modifies store, repo`failures
    ensures old(Trouble(store, repo)) <= Trouble(store, repo)
    ensures Trouble(store, repo) == old(Trouble(store, repo)) ==>
              Smooth(repo.graph, store.shared, Publish(q), old(store.state), repo.refs, store.state, done)
    ensures PublishOutcome(repo.graph, store.shared, old(store.state), repo.refs, q, store.state, done)
    ensures Kept(repo.graph, old(store.state), store.state, true, q.commit in Closure(repo.graph, repo.refs.Values))
  {
    hide Kept, Integrity, Planned, Reached, PublishScript, ReannounceScript, PublishedState, Reannounced, Closure, Usable,
         PlanConflicts, DeltaPossible, CachedCommits;
    ghost var s := store.state;
    var r;
    ghost var plan;
    r, plan := PublishGeneration(store, repo, q);
    done := r.Ok?;
    if plan.Some? {
      assert PlanTaken(repo.graph, store.shared, s, repo.refs, q, plan.value, store.state, done);
      if FreshRequest(s, q) {
        FreshPlanIsFree(repo.graph, s, repo.refs, Cached(repo), q, plan.value);
      }
    }
  }

  method PerformIndex(store: ObjectStore, repo: Repo, commit: ObjectId, at: Time) returns (done: bool)
    requires Integrity(store.state)
    modifies store, repo`failures, repo`gaps
    ensures old(Trouble(store, repo)) <= Trouble(store, repo)
    ensures Trouble(store, repo) == old(Trouble(store, repo)) ==>
              Smooth(repo.graph, store.shared, Index(commit, at), old(store.state), repo.refs, store.state, done)
    ensures IndexOutcome(repo.graph, old(store.state), commit, at, store.state, done)
    ensures Kept(repo.graph, old(store.state), store.state, true, true)
  {
    hide Kept, Integrity, Leads, Applied, NothingLeads, NoTipLeads, CachedCommits;
    var r;
    ghost var through;
    r, through := IndexFromKnownGeneration(store, repo, commit, at);
    done := r.Ok? && r.value.Some?;
  }

  method PerformCompact(store: ObjectStore, repo: Repo, threshold: nat, dryRun: bool, id: GenerationId, now: Time)
    returns (done: bool)
    requires Integrity(store.state)
    modifies store, repo
    ensures old(Trouble(store, repo)) <= Trouble(store, repo)
    ensures Trouble(store, repo) == old(Trouble(store, repo)) ==>
              Smooth(repo.graph, store.shared, Compact(threshold, dryRun, id, now), old(store.state), old(repo.refs), store.state, done)
    ensures repo.refs in {old(repo.refs), HydratedRefs(old(store.state), old(repo.refs))}
    ensures CompactOutcome(repo.graph, store.shared, old(store.state), old(repo.refs), dryRun, id, now, store.state, done)
    ensures var s := old(store.state);
            Kept(repo.graph, s, store.state, true, ReachesAll(s, Closure(repo.graph, HydratedRefs(s, old(repo.refs)).Values)))
  {
    hide Kept, Integrity, Repacked, Reached, AfterWrites, CompactScript, Compacted, Lists, HydratedRefs,
         NothingIsDeleted, ReachesAll, Closure, Covered, ServedHead, HydratedHead, NeedsCompaction, Hydratable;
    ghost var s, refs := store.state, repo.refs;
    var r;
    ghost var made, ck, rk;
    if NeedsCompaction(s, threshold) {
      HeadIsHydratable(s, threshold, repo.packs);
    }
    r, made, ck, rk := CompactGenerationChain(store, repo, threshold, dryRun, id, now);
    done := r.Ok? && r.value.Some? && !dryRun;
    if made.Some? {
      assert RepackTaken(store.shared, s, id, now, made.value, ck, rk, store.state, done);
    }
  }

  /** Integrity is enough to hydrate the head. */
  lemma HeadIsHydratable(s: State, threshold: nat, local: set<PackKey>)
    requires Integrity(s) && NeedsCompaction(s, threshold)
    ensures Hydratable(s, local)
  {
    assert s.head.value.generation in Referenced(s);
    assert Usable(s, s.head.value.generation);
  }

  method PerformSweep(store: ObjectStore, cutoff: Time, ghost g: Graph) returns (done: bool)
    requires Integrity(store.state)
    modifies store
    ensures old(store.faults) <= store.faults
    ensures store.faults == old(store.faults) && |old(store.state).generations| < MAX_SCAN_KEYS ==> done
    ensures SweepOutcome(old(store.state), cutoff, store.state, done)
    ensures Kept(g, old(store.state), store.state, true, old(store.state).head.Some? ==> HeadTakesOver(old(store.state), cutoff))
  {
    hide Kept, Integrity, HeadTakesOver, NothingKeptIsLost, Reached, AfterWrites, SweepScript, OrderFor, Swept,
         Superseded, ExclusivePacks, KeptPacks;
    ghost var s := store.state;
    var r, orphans;
    ghost var listed, order;
    r, orphans, listed, order := SweepSuperseded(store, cutoff, g);
    done := r.Ok?;
    if s.head.None? {
      KeptStart(g, s, true, true);
    } else {
      OrphansUnkept(s.packs - ExclusivePacks(s, Superseded(s, cutoff)), listed, KeptPacks(s, Superseded(s, cutoff)), cutoff);
    }
  }

  lemma OrphansUnkept(packs: map<PackKey, Time>, listed: seq<PackKey>, kept: set<PackKey>, cutoff: Time)
    ensures OrphansAmong(packs, listed, kept, cutoff) !! kept
  {
  }

  method Perform(store: ObjectStore, repo: Repo, op: Op) returns (done: bool)
    requires Integrity(store.state)
    modifies store, repo
    ensures old(Trouble(store, repo)) <= Trouble(store, repo)
    ensures Trouble(store, repo) == old(Trouble(store, repo)) ==>
              Smooth(repo.graph, store.shared, op, old(store.state), old(repo.refs), store.state, done)
    ensures Outcome(repo.graph, store.shared, op, old(store.state), old(repo.refs), store.state, repo.refs, done)
    ensures Kept(repo.graph, old(store.state), store.state, true,
                 Cautious(repo.graph, op, old(store.state), old(repo.refs)))
  {
    hide Kept, Integrity, Closure, ReachesAll, HeadTakesOver, PublishOutcome, IndexOutcome, CompactOutcome, SweepOutcome,
         HydratedRefs, NothingLeads, NeedsCompaction, PlanTaken, AlreadyPublished;
    match op
    case Fetch(refs, headRef) =>
      KeptStart(repo.graph, store.state, true, true);
      var packs: set<PackKey> := *;
      repo.refs, repo.headRef, repo.packs := refs, headRef, packs;
      done := true;
    case Publish(q) =>
      done := PerformPublish(store, repo, q);
    case Index(commit, at) =>
      done := PerformIndex(store, repo, commit, at);
    case Compact(threshold, dryRun, id, now) =>
      done := PerformCompact(store, repo, threshold, dryRun, id, now);
    case Sweep(cutoff) =>
      done := PerformSweep(store, cutoff, repo.graph);
  }

  lemma EmptyIsSound(g: Graph)
    ensures Integrity(EMPTY) && Covered(g, EMPTY)
  {
  }

  /**
    Operations in order, with the store and the refs before and after each, which
    of them were carried out, and during which of them nothing failed.
  */
  datatype Trace = Trace(
    ops: seq<Op>, states: seq<State>, refs: seq<map<RefName, ObjectId>>, done: seq<bool>, clean: seq<bool>)
  {
    predicate Shaped() {
      |states| == |refs| == |ops| + 1 && |done| == |clean| == |ops| && states[0] == EMPTY
    }
  }

  /** Each operation did what its outcome allows and kept what it promises to keep. */
  ghost predicate IsRun(g: Graph, shared: bool, r: Trace) {
    && r.Shaped()
    && forall i | 0 <= i < |r.ops| ::
         && Outcome(g, shared, r.ops[i], r.states[i], r.refs[i], r.states[i + 1], r.refs[i + 1], r.done[i])
         && Kept(g, r.states[i], r.states[i + 1], true, Cautious(g, r.ops[i], r.states[i], r.refs[i]))
         && (r.clean[i] ==> Smooth(g, shared, r.ops[i], r.states[i], r.refs[i], r.states[i + 1], r.done[i]))
  }

  /**
    Over every run, the head and every commit, ref and default manifest name a
    generation whose manifest and packs are all stored.  If every operation was
    cautious, every complete commit manifest, every listed commit and every head
    tip also leads to packs that hold everything the commit reaches.
  */
  lemma {:induction false} RunKeeps(g: Graph, shared: bool, r: Trace, n: nat)
    requires IsRun(g, shared, r) && n <= |r.ops|
    ensures Integrity(r.states[n])
    ensures (forall i | 0 <= i < n :: Cautious(g, r.ops[i], r.states[i], r.refs[i])) ==> Covered(g, r.states[n])
  {
    hide Covered, Integrity, Cautious, Outcome, Smooth;
    EmptyIsSound(g);
    if n > 0 {
      RunKeeps(g, shared, r, n - 1);
    }
  }

  /** Any operations may be run one after the other, and what happens is such a run, clean where nothing failed. */
  method Run(graph: Graph, shared: bool, ops: seq<Op>) returns (store: ObjectStore, repo: Repo, ghost r: Trace)
    ensures r.ops == ops && IsRun(graph, shared, r) && r.states[|ops|] == store.state && r.refs[|ops|] == repo.refs
    ensures Trouble(store, repo) == 0 ==> forall i | 0 <= i < |ops| :: r.clean[i]
    ensures forall i | 0 <= i <= |ops| :: Integrity(r.states[i])
    ensures (forall i | 0 <= i < |ops| :: Cautious(graph, ops[i], r.states[i], r.refs[i])) ==> Covered(graph, store.state)
  {
    hide Covered, Integrity, Cautious, Outcome, Kept, Smooth;
    store := new ObjectStore(shared);
    repo := new Repo(graph);
    r := Trace([], [store.state], [repo.refs], [], []);
    EmptyIsSound(graph);
    for i := 0 to |ops|
      invariant fresh(store) && fresh(repo) && repo.graph == graph && store.shared == shared
      invariant IsRun(graph, shared, r) && r.ops == ops[..i] && r.states[i] == store.state && r.refs[i] == repo.refs
      invariant Integrity(store.state)
      invariant Trouble(store, repo) == 0 ==> forall j | 0 <= j < i :: r.clean[j]
    {
      ghost var before, trouble := r, Trouble(store, repo);
      var done := Perform(store, repo, ops[i]);
      r := Trace(r.ops + [ops[i]], r.states + [store.state], r.refs + [repo.refs], r.done + [done],
                 r.clean + [Trouble(store, repo) == trouble]);
      OneMore(graph, shared, before, r);
      RunKeeps(graph, shared, r, i + 1);
    }
    assert ops[..|ops|] == ops;
    forall i | 0 <= i <= |ops|
      ensures Integrity(r.states[i])
    {
      RunKeeps(graph, shared, r, i);
    }
    RunKeeps(graph, shared, r, |ops|);
  }

  lemma OneMore(g: Graph, shared: bool, r: Trace, more: Trace)
    requires IsRun(g, shared, r) && more.Shaped() && |more.ops| == |r.ops| + 1
    requires r.ops <= more.ops && r.states <= more.states && r.refs <= more.refs && r.done <= more.done && r.clean <= more.clean
    requires var n := |r.ops|;
             && Outcome(g, shared, more.ops[n], more.states[n], more.refs[n], more.states[n + 1], more.refs[n + 1], more.done[n])
             && Kept(g, more.states[n], more.states[n + 1], true, Cautious(g, more.ops[n], more.states[n], more.refs[n]))
             && (more.clean[n] ==> Smooth(g, shared, more.ops[n], more.states[n], more.refs[n], more.states[n + 1], more.done[n]))
    ensures IsRun(g, shared, more)
  {
    hide Outcome, Kept, Cautious, Smooth;
  }

  // ------------------------------------------------------- when sweeping is safe

  /** The head's packs hold every complete commit, wherever it is mapped. */
  ghost predicate HeadHoldsAll(s: State) {
    forall c | c in s.commits && s.commits[c].complete :: s.head.Some? && c in ObjectsOf(s, s.head.value.generation)
  }

  lemma HeadHoldsAllIsSafe(s: State, cutoff: Time)
    requires HeadHoldsAll(s) && s.head.Some?
    ensures HeadTakesOver(s, cutoff)
  {
    hide Superseded, ObjectsOf;
  }

  /** The store after a publish that ran to its end without a newer head getting in first. */
  function Completed(s: State, p: Plan): State {
    PublishedState(s, p).(head := Some(p.head))
  }

  lemma CompletedObjects(s: State, p: Plan)
    ensures Completed(s, p).head == Some(p.head) && ObjectsOf(Completed(s, p), p.id) == p.manifest.Objects()
    ensures Completed(s, p).commits == s.commits + Entries(p, p.manifest.commits)
  {
    hide Entries;
    var t := PublishedState(s, p);
    PublishedFields(s, p);
    hide PublishedState;
    assert ObjectsOf(Completed(s, p), p.id) == t.generations[p.id].Objects();
  }

  lemma PublishedFields(s: State, p: Plan)
    ensures var t := PublishedState(s, p);
            && t.generations == s.generations[p.id := p.manifest]
            && t.commits == s.commits + Entries(p, p.manifest.commits)
  {
    var t := WithPackFiles(s, p);
    assert t.generations == s.generations[p.id := p.manifest] && t.commits == s.commits + Entries(p, p.manifest.commits);
    hide WithPackFiles, Entries;
    RefsOnly(t, p);
  }

  /** Ref, observation and default manifests touch neither generations nor commits. */
  lemma RefsOnly(t: State, p: Plan)
    ensures WithBranch(t, p).generations == t.generations && WithBranch(t, p).commits == t.commits
    ensures p.default.Some? ==>
              var u := WithDefault(WithBranch(t, p), p.default.value);
              u.generations == t.generations && u.commits == t.commits
  {
  }

  /**
    A finished publish that adds a delta to a head holding everything leaves a
    head holding everything, so every later sweep is safe.  One that stores a
    full pack over an existing head does so exactly when the refs still reach
    every commit that was ever mapped.
  */
  lemma FinishedPublishHoldsAll(
    g: Graph, s: State, refs: map<RefName, ObjectId>, cached: set<ObjectId>, q: Request, p: Plan)
    requires Covered(g, s) && HeadHoldsAll(s) && Planned(g, s, refs, cached, q, p)
    requires cached <= refs.Values && q.commit in Closure(g, refs.Values)
    ensures p.delta || s.head.None? ==> HeadHoldsAll(Completed(s, p))
    ensures !p.delta ==>
              (HeadHoldsAll(Completed(s, p))
               <==> forall c | c in s.commits && s.commits[c].complete && c != q.commit :: c in Closure(g, refs.Values))
  {
    PlannedObjects(g, s, refs, cached, q, p);
    CompletedObjects(s, p);
    var t := Completed(s, p);
    forall c | c in p.manifest.commits
      ensures c in Closure(g, refs.Values) && (c in s.commits ==> c == q.commit)
    {
      assert c in AsSet(p.manifest.commits);
      ClosureHolds(g, refs.Values);
    }
    assert forall c | c in t.commits :: c in p.manifest.commits || (c in s.commits && t.commits[c] == s.commits[c]);
    assert q.commit in AsSet(p.manifest.commits);
    hide Closure, Covered, Planned, Completed, ObjectsOf;
    if !p.delta {
      forall c | c in s.commits && s.commits[c].complete && c != q.commit
        ensures t.commits[c] == s.commits[c]
      {
      }
    }
  }

  lemma ClosureHolds(g: Graph, s: set<ObjectId>)
    ensures s <= Closure(g, s)
  {
  }

  // ---------------------------------------------------- runs whose sweeps are safe

  /** A write that leaves the head with a generation holding these objects and maps no complete commit beyond them. */
  predicate Calm(h: GenerationId, objects: set<ObjectId>, w: Write) {
    match w
    case PutGeneration(id, _) => id != h
    case PutCommit(c, m) => m.complete ==> c in objects
    case PutHead(_) => false
    case DeleteGeneration(id) => id != h
    case _ => true
  }

  predicate AllCalm(h: GenerationId, objects: set<ObjectId>, ws: seq<Write>) {
    forall w | w in ws :: Calm(h, objects, w)
  }

  /** The head's generation holds exactly these objects, and every complete commit is among them. */
  ghost predicate HeadHolds(s: State, h: GenerationId, objects: set<ObjectId>) {
    && s.head.Some? && s.head.value.generation == h && ObjectsOf(s, h) == objects
    && forall c | c in s.commits && s.commits[c].complete :: c in objects
  }

  lemma {:induction false} CalmKeeps(s: State, ws: seq<Write>, h: GenerationId, objects: set<ObjectId>)
    requires HeadHolds(s, h, objects) && AllCalm(h, objects, ws)
    ensures HeadHolds(AfterWrites(s, ws), h, objects)
  {
    if ws != [] {
      CalmKeeps(s, ws[..|ws| - 1], h, objects);
      OneCalm(AfterWrites(s, ws[..|ws| - 1]), ws[|ws| - 1], h, objects);
    }
  }

  lemma OneCalm(s: State, w: Write, h: GenerationId, objects: set<ObjectId>)
    requires HeadHolds(s, h, objects) && Calm(h, objects, w)
    ensures HeadHolds(Applied(s, w), h, objects)
  {
  }

  /** Stopping anywhere within calm writes. */
  lemma CalmWherever(s: State, ws: seq<Write>, t: State, h: GenerationId, objects: set<ObjectId>)
    requires HeadHolds(s, h, objects) && AllCalm(h, objects, ws) && Reached(false, s, ws, t)
    ensures HeadHolds(t, h, objects)
  {
    hide AfterWrites, HeadHolds, Calm, Reached;
    var n := StoppedAt(false, s, ws, t);
    CalmKeeps(s, ws[..n], h, objects);
    assert t == AfterWrites(s, ws[..n]);
  }

  /** Moving manifests is calm while every complete commit is among the objects. */
  lemma {:induction false} CommitMovesAreCalm(
    s: State, ck: seq<ObjectId>, olds: set<GenerationId>, id: GenerationId, h: GenerationId, objects: set<ObjectId>)
    requires forall c | c in s.commits && s.commits[c].complete :: c in objects
    ensures AllCalm(h, objects, MoveCommits(s, ck, olds, id))
  {
    if ck != [] {
      CommitMovesAreCalm(s, ck[..|ck| - 1], olds, id, h, objects);
    }
  }

  lemma {:induction false} RefMovesAreCalm(
    s: State, rk: seq<RefName>, olds: set<GenerationId>, id: GenerationId, h: GenerationId, objects: set<ObjectId>)
    ensures AllCalm(h, objects, MoveRefs(s, rk, olds, id))
  {
    if rk != [] {
      RefMovesAreCalm(s, rk[..|rk| - 1], olds, id, h, objects);
    }
  }

  lemma RepointIsCalm(
    s: State, ck: seq<ObjectId>, rk: seq<RefName>, olds: set<GenerationId>, id: GenerationId, h: GenerationId, objects: set<ObjectId>)
    requires forall c | c in s.commits && s.commits[c].complete :: c in objects
    ensures AllCalm(h, objects, RepointScript(s, ck, rk, olds, id))
  {
    hide MoveCommits, MoveRefs;
    CommitMovesAreCalm(s, ck, olds, id, h, objects);
    RefMovesAreCalm(s, rk, olds, id, h, objects);
  }

  lemma {:induction false} PackDropsAreCalm(packs: seq<PackInfo>, kept: set<PackKey>, h: GenerationId, objects: set<ObjectId>)
    ensures AllCalm(h, objects, PackDrops(packs, kept))
  {
    if packs != [] {
      PackDropsAreCalm(packs[..|packs| - 1], kept, h, objects);
    }
  }

  lemma {:induction false} SweepDropsAreCalm(
    s: State, swept: set<GenerationId>, kept: set<PackKey>, ids: seq<GenerationId>, h: GenerationId, objects: set<ObjectId>)
    requires h !in swept
    ensures AllCalm(h, objects, SweepDrops(s, swept, kept, ids))
  {
    hide PackDrops;
    if ids != [] {
      SweepDropsAreCalm(s, swept, kept, ids[..|ids| - 1], h, objects);
      var x := ids[|ids| - 1];
      if x in swept && x in s.generations {
        PackDropsAreCalm(s.generations[x].packs, kept, h, objects);
      }
    }
  }

  lemma {:induction false} OrphanDropsAreCalm(
    packs: map<PackKey, Time>, keys: seq<PackKey>, kept: set<PackKey>, cutoff: Time, h: GenerationId, objects: set<ObjectId>)
    ensures AllCalm(h, objects, OrphanDrops(packs, keys, kept, cutoff))
  {
    if keys != [] {
      OrphanDropsAreCalm(packs, keys[..|keys| - 1], kept, cutoff, h, objects);
    }
  }

  lemma {:induction false} UploadsAreCalm(s: State, packs: seq<PackInfo>, now: Time, h: GenerationId, objects: set<ObjectId>)
    ensures AllCalm(h, objects, UploadScript(s, packs, now))
  {
    hide KeysOf;
    if packs != [] {
      UploadsAreCalm(s, packs[..|packs| - 1], now, h, objects);
    }
  }

  lemma {:induction false} UploadsTouchPacks(s: State, packs: seq<PackInfo>, now: Time)
    ensures AfterWrites(s, UploadScript(s, packs, now)).commits == s.commits
  {
    hide KeysOf;
    if packs != [] {
      var so := UploadScript(s, packs[..|packs| - 1], now);
      UploadsTouchPacks(s, packs[..|packs| - 1], now);
      AfterOneMore(s, so, PutPack(packs[|packs| - 1].key, now));
      assert so + [] == so;
    }
  }

  /** The head moved on to a generation that holds at least as much. */
  ghost predicate HeadGrows(s: State, t: State) {
    s.head.Some? ==> t.head.Some? && ObjectsOf(s, s.head.value.generation) <= ObjectsOf(t, t.head.value.generation)
  }

  /**
    A publish whose commit a ref reaches, under a fresh id, and which either
    stopped before its first commit manifest or ran to its end and installed a
    head that is no poorer; a compaction under a fresh id whose refs reach
    everything; and any fetch, any indexing and any sweep.
  */
  ghost predicate Quiet(g: Graph, op: Op, s: State, refs: map<RefName, ObjectId>, t: State, done: bool) {
    match op
    case Publish(q) =>
      && q.commit in Closure(g, refs.Values)
      && (AlreadyPublished(s, q.commit)
          || (q.id !in s.generations
              && ((t.commits == s.commits && t.head == s.head)
                  || (done && t.head.Some? && t.head.value.generation == q.id && HeadGrows(s, t)))))
    case Compact(_, _, id, _) => id !in s.generations && ReachesAll(s, Closure(g, HydratedRefs(s, refs).Values))
    case _ => true
  }

  /** A finished publish that adds a delta leaves a head that is no poorer. */
  lemma DeltaGrows(g: Graph, s: State, refs: map<RefName, ObjectId>, cached: set<ObjectId>, q: Request, p: Plan)
    requires Covered(g, s) && Planned(g, s, refs, cached, q, p) && p.delta
    ensures HeadGrows(s, Completed(s, p))
  {
    PlannedObjects(g, s, refs, cached, q, p);
    CompletedObjects(s, p);
    hide Completed, Covered, Closure;
  }

  lemma QuietIsCautious(g: Graph, op: Op, s: State, refs: map<RefName, ObjectId>, t: State, done: bool)
    requires Quiet(g, op, s, refs, t, done) && HeadHoldsAll(s)
    ensures Cautious(g, op, s, refs)
  {
    hide HeadTakesOver, HeadHoldsAll, ReachesAll, Closure;
    if op.Sweep? && s.head.Some? {
      HeadHoldsAllIsSafe(s, op.cutoff);
    }
  }

  /** A publish leaves every generation but its own alone. */
  predicate Apart(h: GenerationId, w: Write) {
    (w.PutGeneration? ==> w.id != h) && (w.DeleteGeneration? ==> w.retired != h)
  }

  lemma {:induction false} ApartKeeps(s: State, ws: seq<Write>, h: GenerationId)
    requires forall w | w in ws :: Apart(h, w)
    ensures ObjectsOf(AfterWrites(s, ws), h) == ObjectsOf(s, h)
  {
    if ws != [] {
      ApartKeeps(s, ws[..|ws| - 1], h);
      OneApart(AfterWrites(s, ws[..|ws| - 1]), ws[|ws| - 1], h);
    }
  }

  lemma OneApart(s: State, w: Write, h: GenerationId)
    requires Apart(h, w)
    ensures ObjectsOf(Applied(s, w), h) == ObjectsOf(s, h)
  {
  }

  lemma PublishIsApart(s: State, p: Plan, h: GenerationId)
    requires h != p.id
    ensures forall w | w in PublishScript(s, p) :: Apart(h, w)
  {
  }

  lemma HeadExists(s: State) returns (h: GenerationId)
    requires Integrity(s) && s.head.Some? && HeadHoldsAll(s)
    ensures h == s.head.value.generation && h in s.generations && HeadHolds(s, h, ObjectsOf(s, h))
  {
    h := s.head.value.generation;
    assert h in Referenced(s) && Usable(s, h);
  }

  lemma QuietPublish(g: Graph, s: State, refs: map<RefName, ObjectId>, q: Request, t: State, done: bool)
    requires Integrity(s) && HeadHoldsAll(s) && Covered(g, t)
    requires PublishOutcome(g, false, s, refs, q, t, done) && Quiet(g, Publish(q), s, refs, t, done)
    ensures HeadHoldsAll(t)
  {
    hide Integrity, Closure, Covered, Planned, PublishScript, Reached, AfterWrites, PublishedState, Reannounced, ObjectsOf;
    if AlreadyPublished(s, q.commit) {
      var h := HeadExists(s);
      CalmWherever(s, ReannounceScript(s, q), t, h, ObjectsOf(s, h));
    } else if t != s || done {
      var p :| PlanTaken(g, false, s, refs, q, p, t, done);
      QuietPlan(g, s, refs, q, p, t, done);
    }
  }

  lemma QuietPlan(g: Graph, s: State, refs: map<RefName, ObjectId>, q: Request, p: Plan, t: State, done: bool)
    requires Integrity(s) && HeadHoldsAll(s) && Covered(g, t) && !AlreadyPublished(s, q.commit)
    requires PlanTaken(g, false, s, refs, q, p, t, done) && Quiet(g, Publish(q), s, refs, t, done)
    ensures HeadHoldsAll(t)
  {
    hide Integrity, Closure, PublishScript, Reached, AfterWrites, PublishedState;
    assert p.id == q.id;
    hide Planned;
    if t.commits == s.commits && t.head == s.head {
      if s.head.Some? {
        var h := HeadExists(s);
        var n := StoppedAt(false, s, PublishScript(s, p), t);
        PublishIsApart(s, p, h);
        ApartKeeps(s, PublishScript(s, p)[..n], h);
      }
    } else {
      PublishedFields(s, p);
      assert ObjectsOf(t, p.id) == p.manifest.Objects();
    }
  }

  lemma QuietIndex(g: Graph, s: State, commit: ObjectId, at: Time, t: State, done: bool)
    requires Integrity(s) && Covered(g, s) && HeadHoldsAll(s) && IndexOutcome(g, s, commit, at, t, done)
    ensures HeadHoldsAll(t)
  {
    hide Closure, CommitsCovered, HeadCovered;
    if done {
      var tip, id :| Leads(g, s, commit, tip, id) && t == Applied(s, PutCommit(commit, CommitManifest(id, true, at)));
      var h := HeadExists(s);
      assert tip in ObjectsOf(s, h);
      ClosureIsLeast(g, {tip}, ObjectsOf(s, h));
      OneCalm(s, PutCommit(commit, CommitManifest(id, true, at)), h, ObjectsOf(s, h));
    }
  }

  lemma QuietSweep(s: State, cutoff: Time, t: State, done: bool)
    requires Integrity(s) && HeadHoldsAll(s) && SweepOutcome(s, cutoff, t, done)
    ensures HeadHoldsAll(t)
  {
    hide Integrity, Reached, Superseded, KeptPacks, SweepDrops, OrphanDrops, RepointScript, ObjectsOf, Swept, AfterWrites;
    if s.head.Some? {
      var o :| OrderFor(s, o) && Reached(false, s, SweepScript(s, cutoff, o), t);
      var h := HeadExists(s);
      var swept, objects := Superseded(s, cutoff), ObjectsOf(s, h);
      HeadStays(s, cutoff);
      RepointIsCalm(s, o.ck, o.rk, swept, h, h, objects);
      SweepDropsAreCalm(s, swept, KeptPacks(s, swept), o.ids, h, objects);
      OrphanDropsAreCalm(s.packs, o.listed, KeptPacks(s, swept), cutoff, h, objects);
      CalmWherever(s, SweepScript(s, cutoff, o), t, h, objects);
    }
  }

  /** Up to the head swap the old head stays in place; from then on the repack holds everything. */
  lemma QuietRepack(
    g: Graph, s: State, refs: map<RefName, ObjectId>, id: GenerationId, now: Time, m: GenerationManifest,
    ck: seq<ObjectId>, rk: seq<RefName>, t: State)
    requires Integrity(s) && s.head.Some? && HeadHoldsAll(s) && id !in s.generations && Repacked(g, s, refs, now, m)
    requires ReachesAll(s, Closure(g, HydratedRefs(s, refs).Values))
    requires Reached(false, s, CompactScript(s, m, id, now, ck, rk), t)
    ensures HeadHoldsAll(t)
  {
    hide Integrity, Closure, HydratedRefs, Reached, AfterWrites, SwitchScript, UploadScript, ObjectsOf, SameButHead;
    var h := HeadExists(s);
    var a := UploadScript(s, m.packs, now) + [PutGeneration(id, m)];
    var b := SwitchScript(s, m, id, now, ck, rk, s.generations.Keys);
    UploadsAreCalm(s, m.packs, now, h, ObjectsOf(s, h));
    var n := StoppedAt(false, s, a + b, t);
    if n <= |a| {
      assert (a + b)[..n] == a[..n];
      ReachedAt(false, s, a, n, t);
      CalmWherever(s, a, t, h, ObjectsOf(s, h));
    } else {
      PrefixOfBoth(a, b, n - |a|);
      AfterBoth(s, a, b[..n - |a|]);
      ReachedAt(false, AfterWrites(s, a), b, n - |a|, t);
      CalmKeeps(s, a, h, ObjectsOf(s, h));
      AfterOneMore(s, UploadScript(s, m.packs, now), PutGeneration(id, m));
      UploadsTouchPacks(s, m.packs, now);
      QuietSwitch(g, s, refs, AfterWrites(s, a), id, now, m, ck, rk, t, n - |a|);
    }
  }

  lemma QuietSwitch(
    g: Graph, s: State, refs: map<RefName, ObjectId>, u: State, id: GenerationId, now: Time, m: GenerationManifest,
    ck: seq<ObjectId>, rk: seq<RefName>, t: State, n: nat)
    requires s.head.Some? && Repacked(g, s, refs, now, m) && ReachesAll(s, Closure(g, HydratedRefs(s, refs).Values))
    requires u.commits == s.commits && id in u.generations && u.generations[id] == m
    requires var b := SwitchScript(s, m, id, now, ck, rk, s.generations.Keys);
             0 < n <= |b| && SameButHead(false, AfterWrites(u, b[..n]), t)
    ensures HeadHoldsAll(t)
  {
    hide Closure, HydratedRefs, RepointScript, AfterWrites;
    var w, objects := PutHead(Head(id, s.head.value.tips, now)), m.Objects();
    var b, moves, marks := SwitchScript(s, m, id, now, ck, rk, s.generations.Keys),
                           RepointScript(s, ck, rk, s.generations.Keys, id), CompleteScript(m.commits, id, now);
    RepointIsCalm(s, ck, rk, s.generations.Keys, id, id, objects);
    MarksAreCalm(s, m, id, now, objects);
    assert b[..n] == [w] + (moves + marks)[..n - 1];
    AfterBoth(u, [w], (moves + marks)[..n - 1]);
    AfterOneMore(u, [], w);
    assert [] + [w] == [w];
    assert HeadHolds(Applied(u, w), id, objects);
    CalmKeeps(Applied(u, w), (moves + marks)[..n - 1], id, objects);
  }

  lemma MarksAreCalm(s: State, m: GenerationManifest, id: GenerationId, now: Time, objects: set<ObjectId>)
    requires AsSet(m.commits) <= objects
    ensures AllCalm(id, objects, CompleteScript(m.commits, id, now))
  {
    assert forall c | c in m.commits :: c in AsSet(m.commits);
  }

  lemma QuietStep(
    g: Graph, op: Op, s: State, refs: map<RefName, ObjectId>, t: State, refs': map<RefName, ObjectId>, done: bool)
    requires Integrity(s) && Covered(g, s) && HeadHoldsAll(s) && Covered(g, t)
    requires Outcome(g, false, op, s, refs, t, refs', done) && Quiet(g, op, s, refs, t, done)
    ensures HeadHoldsAll(t)
  {
    hide Integrity, Covered, Closure, ReachesAll, HydratedRefs, HeadHoldsAll, PublishOutcome, IndexOutcome, SweepOutcome,
         Reached, Repacked, Lists, CompactScript, Compacted;
    match op
    case Fetch(_, _) =>
    case Publish(q) => QuietPublish(g, s, refs, q, t, done);
    case Index(commit, at) => QuietIndex(g, s, commit, at, t, done);
    case Sweep(cutoff) => QuietSweep(s, cutoff, t, done);
    case Compact(_, _, id, now) =>
      if !(t == s && !done) {
        var m, ck, rk :| Repacked(g, s, refs, now, m) && RepackTaken(false, s, id, now, m, ck, rk, t, done);
        QuietRepack(g, s, refs, id, now, m, ck, rk, t);
      }
  }

  /**
    In a store that nobody else publishes to, a run of quiet operations keeps
    everything within the head's packs; so no sweep in it can lose a commit.
  */
  lemma {:induction false} QuietRunHoldsAll(g: Graph, r: Trace, n: nat)
    requires IsRun(g, false, r) && n <= |r.ops|
    requires forall i | 0 <= i < n :: Quiet(g, r.ops[i], r.states[i], r.refs[i], r.states[i + 1], r.done[i])
    ensures Covered(g, r.states[n]) && HeadHoldsAll(r.states[n])
    ensures forall i | 0 <= i < n :: Cautious(g, r.ops[i], r.states[i], r.refs[i])
  {
    hide Integrity, Covered, HeadHoldsAll, Quiet, Outcome, Cautious, Smooth;
    if n == 0 {
      EmptyIsSound(g);
      assert HeadHoldsAll(EMPTY) by {
        NothingMapped();
      }
    } else {
      var i := n - 1;
      QuietRunHoldsAll(g, r, i);
      RunKeeps(g, false, r, i);
      QuietIsCautious(g, r.ops[i], r.states[i], r.refs[i], r.states[n], r.done[i]);
      QuietStep(g, r.ops[i], r.states[i], r.refs[i], r.states[n], r.refs[n], r.done[i]);
    }
  }

  /**
    What a caller can check before an operation so that it is quiet when nothing
    fails: a publish of a commit that a ref reaches, under fresh ids, which builds
    a delta on a head that is not newer, or makes the first head; and compactions
    as before.
  */
  ghost predicate Eager(g: Graph, op: Op, s: State, refs: map<RefName, ObjectId>) {
    match op
    case Publish(q) =>
      && q.commit in Closure(g, refs.Values)
      && (AlreadyPublished(s, q.commit)
          || (FreshRequest(s, q) && (s.head.Some? ==> DeltaPossible(s, q) && s.head.value.updatedAt <= q.now)))
    case Compact(_, _, id, _) => id !in s.generations && ReachesAll(s, Closure(g, HydratedRefs(s, refs).Values))
    case _ => true
  }

  lemma EagerIsQuiet(g: Graph, op: Op, s: State, refs: map<RefName, ObjectId>, t: State, done: bool)
    requires Covered(g, s) && Eager(g, op, s, refs) && Smooth(g, false, op, s, refs, t, done)
    ensures Quiet(g, op, s, refs, t, done)
  {
    hide Covered, ReachesAll, HydratedRefs, Planned, PublishedState, Reached, DeltaPossible, PublishScript, NothingLeads;
    if op.Publish? && !AlreadyPublished(s, op.request.commit) {
      var q := op.request;
      SomeRef(g, refs, q.commit);
      hide Closure;
      var p :| PlanTaken(g, false, s, refs, q, p, t, true) && (p.delta <==> DeltaPossible(s, q));
      PlannedNames(g, s, refs, q, p);
      assert t == Completed(s, p);
      if s.head.Some? {
        DeltaGrows(g, s, refs, CachedCommits(refs), q, p);
      }
    }
  }

  lemma PlannedNames(g: Graph, s: State, refs: map<RefName, ObjectId>, q: Request, p: Plan)
    requires Planned(g, s, refs, CachedCommits(refs), q, p)
    ensures p.head.generation == q.id && p.head.updatedAt == q.now
  {
  }

  lemma SomeRef(g: Graph, refs: map<RefName, ObjectId>, c: ObjectId)
    requires c in Closure(g, refs.Values)
    ensures refs != map[]
  {
    ClosureOfNothing(g);
    assert refs == map[] ==> refs.Values == {};
  }

  /**
    In a store that nobody else publishes to, a run in which nothing fails and
    every operation is eager keeps everything within the head's packs, and every
    publish in it is carried out.
  */
  lemma {:induction false} CleanRunHoldsAll(g: Graph, r: Trace, n: nat)
    requires IsRun(g, false, r) && n <= |r.ops|
    requires forall i | 0 <= i < n :: r.clean[i] && Eager(g, r.ops[i], r.states[i], r.refs[i])
    ensures Covered(g, r.states[n]) && HeadHoldsAll(r.states[n])
    ensures forall i | 0 <= i < n :: Cautious(g, r.ops[i], r.states[i], r.refs[i]) && (r.ops[i].Publish? ==> r.done[i])
  {
    hide Integrity, Covered, HeadHoldsAll, Quiet, Outcome, Cautious, Smooth, Eager;
    if n == 0 {
      EmptyIsSound(g);
      assert HeadHoldsAll(EMPTY) by {
        NothingMapped();
      }
    } else {
      var i := n - 1;
      var op, s, t, done := r.ops[i], r.states[i], r.states[n], r.done[i];
      CleanRunHoldsAll(g, r, i);
      RunKeeps(g, false, r, i);
      EagerIsQuiet(g, op, s, r.refs[i], t, done);
      QuietIsCautious(g, op, s, r.refs[i], t, done);
      QuietStep(g, op, s, r.refs[i], t, r.refs[n], done);
      if op.Publish? {
        EagerIsDone(g, op, s, r.refs[i], t, done);
      }
    }
  }

  lemma EagerIsDone(g: Graph, op: Op, s: State, refs: map<RefName, ObjectId>, t: State, done: bool)
    requires op.Publish? && Eager(g, op, s, refs) && Smooth(g, false, op, s, refs, t, done)
    ensures done
  {
    SomeRef(g, refs, op.request.commit);
    hide Closure, PlanTaken, ReachesAll, HydratedRefs, NothingLeads, NeedsCompaction, DeltaPossible;
  }

  lemma NothingMapped()
    ensures HeadHoldsAll(EMPTY)
  {
  }
}
