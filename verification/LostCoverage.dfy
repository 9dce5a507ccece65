/**
  A run over the object store in which a sweep loses a commit that the store
  promised to keep.
*/
module LostCoverage {
  import opened Wrappers
  import opened ObjectGraph
  import opened StoreState
  import opened LocalRepo
  import opened GenerationStore
  import opened Retention
  import opened Compaction
  import opened StoreRuns

  // ------------------------------------------------- where coverage can be lost

  const ANCIENT: ObjectId := ObjectId(0)
  const LOST: ObjectId := ObjectId(1)
  const NEWER: ObjectId := ObjectId(2)

  function Branch(tip: ObjectId): map<RefName, ObjectId> {
    map["refs/heads/main" := tip]
  }

  function Publication(tip: ObjectId, n: nat): Request {
    Request(tip, None, false, true, GenerationId(n), n)
  }

  function FirstKey(): PackKey {
    PackKey({ANCIENT}, 0)
  }

  function FirstPlan(): Plan {
    Plan(GenerationId(0), false, FirstKey(),
         GenerationManifest(0, [PackInfo(FirstKey(), Base)], Branch(ANCIENT), None, [ANCIENT]),
         Head(GenerationId(0), [ANCIENT], 0), None, None, 0)
  }

  /** A delta generation for a tip that shares nothing with the first. */
  function LaterPlan(tip: ObjectId, n: nat): Plan {
    Plan(GenerationId(n), true, PackKey({tip}, 0),
         GenerationManifest(n, [PackInfo(FirstKey(), Base), PackInfo(PackKey({tip}, 0), Delta)], Branch(tip), None, [tip]),
         Head(GenerationId(n), [ANCIENT, tip], n), None, None, n)
  }

  /** One publish went through. */
  function AfterFirst(): State {
    PublishedState(EMPTY, FirstPlan()).(head := Some(FirstPlan().head))
  }

  /** Two more, of a branch that was rewritten in between, stopped just before moving the head. */
  function AfterCrashes(): State {
    WithPackFiles(WithPackFiles(AfterFirst(), LaterPlan(LOST, 1)), LaterPlan(NEWER, 2))
  }

  lemma ClosureWithoutLinks(s: set<ObjectId>)
    ensures Closure(map[], s) == s
  {
    ClosureIsLeast(map[], s, s);
  }

  lemma BranchValues(tip: ObjectId)
    ensures Branch(tip).Values == {tip}
    ensures AsSet([]) == {} && AsSet([tip]) == {tip}
  {
    assert "refs/heads/main" in Branch(tip);
    assert tip in [tip];
  }

  lemma FirstIsGenuine()
    ensures Planned(map[], EMPTY, Branch(ANCIENT), {}, Publication(ANCIENT, 0), FirstPlan())
  {
    BranchValues(ANCIENT);
    ClosureWithoutLinks({ANCIENT});
    ClosureWithoutLinks({});
  }

  lemma LaterIsGenuine(s: State, tip: ObjectId, n: nat)
    requires s.head == Some(FirstPlan().head) && GenerationId(0) in s.generations
    requires s.generations[GenerationId(0)] == FirstPlan().manifest
    requires tip != ANCIENT
    ensures Planned(map[], s, Branch(tip), {}, Publication(tip, n), LaterPlan(tip, n))
  {
    BranchValues(tip);
    BranchValues(ANCIENT);
    ClosureWithoutLinks({ANCIENT});
    ClosureWithoutLinks({tip});
  }

  lemma ManifestObjects(tip: ObjectId, n: nat)
    ensures FirstPlan().manifest.PackKeys() == {FirstKey()} && FirstPlan().manifest.Objects() == {ANCIENT}
    ensures LaterPlan(tip, n).manifest.PackKeys() == {FirstKey(), PackKey({tip}, 0)}
    ensures LaterPlan(tip, n).manifest.Objects() == {ANCIENT, tip}
  {
    var first, later := FirstPlan().manifest, LaterPlan(tip, n).manifest;
    assert first.packs[0] in first.packs;
    assert later.packs[0] in later.packs && later.packs[1] in later.packs;
  }

  /** The publish of a later plan, write by write, up to its crash. */
  lemma CrashedPublish(s: State, tip: ObjectId, n: nat)
    requires Integrity(s) && Covered(map[], s)
    requires FirstKey() in s.packs && PackKey({tip}, 0) !in s.packs
    requires GenerationId(n) !in s.generations && tip !in s.commits
    ensures var p, t := LaterPlan(tip, n), WithPackFiles(s, LaterPlan(tip, n));
            && Integrity(t) && Covered(map[], t)
            && t.head == s.head && t.refs == s.refs && t.defaultRef == s.defaultRef && t.packs == s.packs[p.key := n]
            && t.generations == s.generations[p.id := p.manifest]
            && t.commits == s.commits[tip := CommitManifest(p.id, true, n)]
  {
    hide Integrity, Covered;
    var p := LaterPlan(tip, n);
    ManifestObjects(tip, n);
    var s1 := Applied(s, PutPack(p.key, n));
    var s2 := Applied(s1, PutGeneration(p.id, p.manifest));
    var w := PutCommit(tip, CommitManifest(p.id, true, n));
    HarmlessKeepsIntegrity(s, PutPack(p.key, n));
    CoveringKeepsCoverage(map[], s, PutPack(p.key, n));
    assert SelfContained(map[], p.manifest);
    HarmlessKeepsIntegrity(s1, PutGeneration(p.id, p.manifest));
    CoveringKeepsCoverage(map[], s1, PutGeneration(p.id, p.manifest));
    HarmlessKeepsIntegrity(s2, w);
    CoveringKeepsCoverage(map[], s2, w);
    CrashedState(s, tip, n);
  }

  lemma CrashedState(s: State, tip: ObjectId, n: nat)
    requires PackKey({tip}, 0) !in s.packs
    ensures var p := LaterPlan(tip, n);
            WithPackFiles(s, p) == s.(packs := s.packs[p.key := n], generations := s.generations[p.id := p.manifest],
                                      commits := s.commits[tip := CommitManifest(p.id, true, n)])
  {
    var p := LaterPlan(tip, n);
    assert Entries(p, [tip]) == map[tip := CommitManifest(p.id, true, n)] by {
      assert tip in [tip];
    }
    assert s.commits + map[tip := CommitManifest(p.id, true, n)] == s.commits[tip := CommitManifest(p.id, true, n)];
  }

  lemma FirstIsSound()
    ensures var s := AfterFirst();
            && Integrity(s) && Covered(map[], s)
            && s.head == Some(FirstPlan().head) && s.refs == map[] && s.defaultRef == None
            && s.packs == map[FirstKey() := 0]
            && s.generations == map[GenerationId(0) := FirstPlan().manifest]
            && s.commits == map[ANCIENT := CommitManifest(GenerationId(0), true, 0)]
  {
    ManifestObjects(LOST, 1);
    var p := FirstPlan();
    assert Entries(p, [ANCIENT]) == map[ANCIENT := CommitManifest(p.id, true, 0)] by {
      assert ANCIENT in [ANCIENT];
    }
    assert AfterFirst().refs == map[];
  }

  /**
    A run with integrity and coverage whose sweep loses a commit.  Two publishes
    of a rewritten branch stop between their commit manifest and the head swap;
    the sweep then repoints the first of them to a head that never held it.
  */
  lemma SweepCanLoseCoverage()
    ensures Planned(map[], EMPTY, Branch(ANCIENT), {}, Publication(ANCIENT, 0), FirstPlan())
    ensures Planned(map[], AfterFirst(), Branch(LOST), {}, Publication(LOST, 1), LaterPlan(LOST, 1))
    ensures Planned(map[], WithPackFiles(AfterFirst(), LaterPlan(LOST, 1)), Branch(NEWER), {}, Publication(NEWER, 2), LaterPlan(NEWER, 2))
    ensures Integrity(AfterCrashes()) && Covered(map[], AfterCrashes())
    ensures AfterCrashes().head.Some? && forall orphans :: !Covered(map[], Swept(AfterCrashes(), 3, orphans))
  {
    hide Integrity, Covered, Planned, Swept, AfterFirst, WithPackFiles, Closure, BeforeLoss, HeadTakesOver;
    var s := AfterCrashes();
    FirstIsGenuine();
    StatesBeforeLoss();
    HeadBeforeLoss(s);
    LostIsLeftBehind(s);
    forall orphans
      ensures !Covered(map[], Swept(s, 3, orphans))
    {
      SweepCoverage(map[], s, 3, orphans);
    }
  }

  /** The first crashed generation is superseded, and the head does not hold its commit. */
  lemma LostIsLeftBehind(s: State)
    requires BeforeLoss(s)
    ensures !HeadTakesOver(s, 3)
  {
    ManifestObjects(LOST, 1);
    assert GenerationId(1) in Superseded(s, 3) by {
      assert s.generations[GenerationId(1)].createdAt < s.generations[GenerationId(2)].createdAt < 3;
    }
    assert LOST !in ObjectsOf(s, GenerationId(0));
  }

  // ------------------------------------------------------------ the same as a run

  /** One step of a run. */
  ghost predicate Step(op: Op, s: State, refs: map<RefName, ObjectId>, t: State, refs': map<RefName, ObjectId>, done: bool) {
    && Outcome(map[], false, op, s, refs, t, refs', done)
    && Kept(map[], s, t, true, Cautious(map[], op, s, refs))
  }

  lemma SoundStep(s: State, t: State, cautious: bool)
    requires Integrity(t) && (cautious ==> Covered(map[], t))
    ensures Kept(map[], s, t, true, cautious)
  {
  }

  lemma NothingCached(tip: ObjectId)
    ensures CachedCommits(Branch(tip)) == {}
  {
    assert "refs/heads/main"[5] == 'h' && "refs/cache/commits/"[5] == "refs/cache/upstream/heads/"[5] == 'c';
    forall prefix | prefix in {"refs/cache/commits", "refs/cache/upstream/heads"}
      ensures !Under("refs/heads/main", prefix)
    {
      assert (prefix + "/")[5] == 'c';
    }
  }

  lemma PlanIsStep(s: State, q: Request, p: Plan, t: State, done: bool)
    requires !AlreadyPublished(s, q.commit) && PlanTaken(map[], false, s, Branch(q.commit), q, p, t, done)
    requires Integrity(t) && Covered(map[], t)
    ensures Step(Publish(q), s, Branch(q.commit), t, Branch(q.commit), done)
  {
    hide Integrity, Covered, Kept, PlanTaken, Cautious, Branch, AlreadyPublished;
    SoundStep(s, t, Cautious(map[], Publish(q), s, Branch(q.commit)));
  }

  lemma FirstStep()
    ensures Step(Publish(Publication(ANCIENT, 0)), EMPTY, Branch(ANCIENT), AfterFirst(), Branch(ANCIENT), true)
  {
    var p := FirstPlan();
    FirstIsSound();
    NothingCached(ANCIENT);
    FirstIsGenuine();
    PublishDone(EMPTY, p);
    ReachedEnds(false, EMPTY, PublishScript(EMPTY, p));
    assert !AlreadyPublished(EMPTY, ANCIENT);
    hide Step, Planned, PublishedState, PublishScript, Reached, AfterWrites, Integrity, Covered, CachedCommits, Branch;
    assert PlanTaken(map[], false, EMPTY, Branch(ANCIENT), Publication(ANCIENT, 0), p, AfterFirst(), true);
    PlanIsStep(EMPTY, Publication(ANCIENT, 0), p, AfterFirst(), true);
  }

  lemma CrashStep(s: State, tip: ObjectId, n: nat, t: State)
    requires Planned(map[], s, Branch(tip), {}, Publication(tip, n), LaterPlan(tip, n)) && tip !in s.commits
    requires t == WithPackFiles(s, LaterPlan(tip, n)) && Integrity(t) && Covered(map[], t)
    ensures Step(Publish(Publication(tip, n)), s, Branch(tip), t, Branch(tip), false)
  {
    hide Step, Integrity, Covered, Planned, WithPackFiles, PackFilesScript, FinishScript, AfterWrites, Reached, CachedCommits, Branch;
    var p := LaterPlan(tip, n);
    NothingCached(tip);
    PackFilesDone(s, p);
    ReachedAfter(s, PackFilesScript(s, p), PublishScript(s, p), WithPackFiles(s, p));
    assert PlanTaken(map[], false, s, Branch(tip), Publication(tip, n), p, t, false);
    PlanIsStep(s, Publication(tip, n), p, t, false);
  }

  /** What the lossy sweep leaves: the lost commit is mapped to the head's generation, and its pack is gone. */
  function Lossy(s: State): State {
    s.(commits := s.commits[LOST := CommitManifest(GenerationId(0), true, 1)],
       packs := s.packs - {PackKey({LOST}, 0)}, generations := s.generations - {GenerationId(1)})
  }

  predicate BeforeLoss(s: State) {
    && s.head == Some(FirstPlan().head) && s.refs == map[] && s.defaultRef == None
    && s.generations == map[GenerationId(0) := FirstPlan().manifest][GenerationId(1) := LaterPlan(LOST, 1).manifest]
                           [GenerationId(2) := LaterPlan(NEWER, 2).manifest]
    && s.commits == map[ANCIENT := CommitManifest(GenerationId(0), true, 0)][LOST := CommitManifest(GenerationId(1), true, 1)]
                       [NEWER := CommitManifest(GenerationId(2), true, 2)]
    && s.packs == map[FirstKey() := 0][PackKey({LOST}, 0) := 1][PackKey({NEWER}, 0) := 2]
  }

  lemma LossyPacks(s: State)
    requires BeforeLoss(s)
    ensures Superseded(s, 3) == {GenerationId(1)}
    ensures KeptPacks(s, {GenerationId(1)}) == {FirstKey(), PackKey({NEWER}, 0)}
  {
    ManifestObjects(LOST, 1);
    ManifestObjects(NEWER, 2);
    assert PackKey({LOST}, 0) != PackKey({NEWER}, 0) && PackKey({LOST}, 0) != FirstKey() by {
      assert LOST in PackKey({LOST}, 0).objects && LOST !in PackKey({NEWER}, 0).objects;
    }
    var x, y := GenerationId(1), GenerationId(2);
    assert s.generations[x].createdAt < s.generations[y].createdAt < 3;
    forall k | k in {FirstKey(), PackKey({NEWER}, 0)}
      ensures k in KeptPacks(s, {x})
    {
      assert y in s.generations && y !in {x} && k in s.generations[y].PackKeys();
    }
    assert KeptPacks(s, {x}) == {FirstKey(), PackKey({NEWER}, 0)};
  }

  lemma LossyExclusive(s: State)
    requires BeforeLoss(s)
    ensures ExclusivePacks(s, {GenerationId(1)}) == {PackKey({LOST}, 0)}
  {
    LossyPacks(s);
    ManifestObjects(LOST, 1);
    hide Superseded, KeptPacks, GenerationManifest.PackKeys;
    var x, lost := GenerationId(1), PackKey({LOST}, 0);
    assert s.generations[x] == LaterPlan(LOST, 1).manifest;
    assert lost !in KeptPacks(s, {x}) by {
      assert LOST in lost.objects && LOST !in PackKey({NEWER}, 0).objects && LOST !in FirstKey().objects;
    }
    assert FirstKey() in KeptPacks(s, {x});
    assert x in s.generations && x in {x} && lost in s.generations[x].PackKeys();
    assert lost in ExclusivePacks(s, {x});
    forall k | k in ExclusivePacks(s, {x})
      ensures k == lost
    {
      assert k in s.generations[x].PackKeys() && k != FirstKey();
    }
  }

  function LossyOrder(): SweepOrder {
    SweepOrder([ANCIENT, LOST, NEWER], [], [GenerationId(0), GenerationId(1), GenerationId(2)], [])
  }

  lemma LossyMoves(s: State)
    requires BeforeLoss(s)
    ensures RepointScript(s, LossyOrder().ck, [], {GenerationId(1)}, GenerationId(0))
            == [PutCommit(LOST, CommitManifest(GenerationId(0), true, 1))]
  {
    var ck := LossyOrder().ck;
    assert ck[..2] == [ANCIENT, LOST] && ck[..1] == [ANCIENT] && ck[..2][..1] == [ANCIENT] && [ANCIENT][..0] == [];
    var olds, id := {GenerationId(1)}, GenerationId(0);
    assert MoveCommits(s, [ANCIENT], olds, id) == [];
    assert MoveCommits(s, [ANCIENT, LOST], olds, id) == [PutCommit(LOST, CommitManifest(id, true, 1))];
    assert MoveCommits(s, ck, olds, id) == MoveCommits(s, [ANCIENT, LOST], olds, id);
  }

  lemma LossyDrops(s: State)
    requires BeforeLoss(s)
    ensures SweepDrops(s, {GenerationId(1)}, {FirstKey(), PackKey({NEWER}, 0)}, LossyOrder().ids)
            == [DeletePack(PackKey({LOST}, 0)), DeleteGeneration(GenerationId(1))]
  {
    var ids, swept, kept := LossyOrder().ids, {GenerationId(1)}, {FirstKey(), PackKey({NEWER}, 0)};
    assert PackKey({LOST}, 0) !in kept by {
      assert LOST in PackKey({LOST}, 0).objects && LOST !in PackKey({NEWER}, 0).objects;
    }
    var packs := LaterPlan(LOST, 1).manifest.packs;
    assert packs[..1] == [packs[0]] && [packs[0]][..0] == [];
    assert PackDrops([packs[0]], kept) == [];
    assert PackDrops(packs, kept) == [DeletePack(PackKey({LOST}, 0))];
    hide PackDrops;
    assert ids[..2] == [ids[0], ids[1]] && ids[..2][..1] == [ids[0]] && [ids[0]][..0] == [];
    assert SweepDrops(s, swept, kept, [ids[0]]) == [];
    assert SweepDrops(s, swept, kept, [ids[0], ids[1]]) == PackDrops(packs, kept) + [DeleteGeneration(ids[1])];
  }

  lemma LossyScript(s: State)
    requires BeforeLoss(s)
    ensures SweepScript(s, 3, LossyOrder())
            == [PutCommit(LOST, CommitManifest(GenerationId(0), true, 1)), DeletePack(PackKey({LOST}, 0)),
                DeleteGeneration(GenerationId(1))]
  {
    LossyPacks(s);
    LossyMoves(s);
    LossyDrops(s);
    NothingDropped(s, s, {}, KeptPacks(s, {GenerationId(1)}), 3);
    assert s.head.value.generation == GenerationId(0);
    hide RepointScript, SweepDrops, Superseded, KeptPacks, BeforeLoss;
  }

  lemma LossyWrites(s: State)
    ensures AfterWrites(s, [PutCommit(LOST, CommitManifest(GenerationId(0), true, 1)), DeletePack(PackKey({LOST}, 0)),
                            DeleteGeneration(GenerationId(1))]) == Lossy(s)
  {
    var a := PutCommit(LOST, CommitManifest(GenerationId(0), true, 1));
    var b, c := DeletePack(PackKey({LOST}, 0)), DeleteGeneration(GenerationId(1));
    assert Applied(Applied(Applied(s, a), b), c) == Lossy(s);
    hide Applied, Lossy;
    AfterThree(s, a, b, c);
  }

  lemma AfterThree(s: State, a: Write, b: Write, c: Write)
    ensures AfterWrites(s, [a, b, c]) == Applied(Applied(Applied(s, a), b), c)
  {
    hide Applied, AfterWrites;
    AfterOneMore(s, [], a);
    AfterOneMore(s, [a], b);
    AfterOneMore(s, [a, b], c);
    assert [] + [a] == [a] && [a] + [b] == [a, b] && [a, b] + [c] == [a, b, c];
  }

  lemma LossyRepointed(s: State)
    requires BeforeLoss(s)
    ensures Repointed(s, {GenerationId(1)}, GenerationId(0))
            == s.(commits := s.commits[LOST := CommitManifest(GenerationId(0), true, 1)])
  {
    var ids, h := {GenerationId(1)}, GenerationId(0);
    var t := WithCommitsMoved(s, s.commits.Keys, ids, h);
    assert t.commits == s.commits[LOST := CommitManifest(h, true, 1)];
    assert WithRefsMoved(t, t.refs.Keys, ids, h).refs == map[];
  }

  lemma LossyIsSwept(s: State)
    requires BeforeLoss(s)
    ensures Swept(s, 3, {}) == Lossy(s)
  {
    LossyPacks(s);
    LossyExclusive(s);
    LossyRepointed(s);
    assert s.head.value.generation == GenerationId(0);
    hide Superseded, ExclusivePacks, Repointed, BeforeLoss;
  }

  lemma NamedAfterLoss(s: State)
    requires BeforeLoss(s)
    ensures Referenced(Lossy(s)) <= {GenerationId(0), GenerationId(2)}
  {
    hide GenerationManifest.PackKeys;
  }

  lemma LossyKeepsIntegrity(s: State)
    requires BeforeLoss(s)
    ensures Integrity(Lossy(s))
  {
    ManifestObjects(LOST, 1);
    ManifestObjects(NEWER, 2);
    var t := Lossy(s);
    assert PackKey({LOST}, 0) != PackKey({NEWER}, 0) && PackKey({LOST}, 0) != FirstKey() by {
      assert LOST in PackKey({LOST}, 0).objects && LOST !in PackKey({NEWER}, 0).objects;
    }
    NamedAfterLoss(s);
    hide GenerationManifest.PackKeys, Referenced, FirstPlan, LaterPlan;
    assert Usable(t, GenerationId(0)) && Usable(t, GenerationId(2));
  }

  lemma LossyOutcome(s: State)
    requires BeforeLoss(s)
    ensures SweepOutcome(s, 3, Lossy(s), true)
  {
    LossyScript(s);
    LossyWrites(s);
    LossyIsSwept(s);
    var o := LossyOrder();
    assert OrderFor(s, o) by {
      LossyListing(s);
    }
    ReachedEnds(false, s, SweepScript(s, 3, o));
    hide OrderFor, SweepScript, Swept, Reached, AfterWrites, KeptPacks, Superseded;
    assert {} !! KeptPacks(s, Superseded(s, 3));
  }

  lemma LossyListing(s: State)
    requires BeforeLoss(s)
    ensures OrderFor(s, LossyOrder())
  {
    var o := LossyOrder();
    assert forall x :: x in o.ck <==> x in s.commits.Keys;
    assert forall x :: x in o.ids <==> x in s.generations.Keys;
  }

  lemma SweepIsOutcome(s: State, cutoff: Time, t: State, refs: map<RefName, ObjectId>)
    requires SweepOutcome(s, cutoff, t, true)
    ensures Outcome(map[], false, Sweep(cutoff), s, refs, t, refs, true)
  {
    hide SweepOutcome, PublishOutcome, IndexOutcome, CompactOutcome, HydratedRefs;
  }

  lemma LossyIsRash(s: State)
    requires BeforeLoss(s)
    ensures !Cautious(map[], Sweep(3), s, Branch(NEWER))
  {
    LostIsLeftBehind(s);
    hide HeadTakesOver, ReachesAll, Closure, HydratedRefs, Branch;
  }

  lemma LossyUncovered(s: State)
    requires BeforeLoss(s) && Integrity(s) && Covered(map[], s)
    ensures !Covered(map[], Lossy(s))
  {
    LossyIsSwept(s);
    LostIsLeftBehind(s);
    HeadBeforeLoss(s);
    hide Covered, Integrity, Lossy, Swept, HeadTakesOver, BeforeLoss;
    SweepCoverage(map[], s, 3, {});
  }

  lemma LossySweep(s: State)
    requires BeforeLoss(s) && Integrity(s) && Covered(map[], s)
    ensures Step(Sweep(3), s, Branch(NEWER), Lossy(s), Branch(NEWER), true)
    ensures !Covered(map[], Lossy(s))
  {
    hide Covered, Integrity, Lossy, SweepOutcome, BeforeLoss, Cautious, Outcome, Kept, Branch;
    LossyOutcome(s);
    LossyKeepsIntegrity(s);
    LossyUncovered(s);
    LossyIsRash(s);
    SweepIsOutcome(s, 3, Lossy(s), Branch(NEWER));
    SoundStep(s, Lossy(s), false);
  }

  /** The states of the run above, each sound, up to the sweep. */
  lemma StatesBeforeLoss()
    ensures var s1, s3, s5 := AfterFirst(), WithPackFiles(AfterFirst(), LaterPlan(LOST, 1)), AfterCrashes();
            && Integrity(s1) && Covered(map[], s1) && Integrity(s3) && Covered(map[], s3) && Integrity(s5) && Covered(map[], s5)
            && Planned(map[], s1, Branch(LOST), {}, Publication(LOST, 1), LaterPlan(LOST, 1))
            && Planned(map[], s3, Branch(NEWER), {}, Publication(NEWER, 2), LaterPlan(NEWER, 2))
            && LOST !in s1.commits && NEWER !in s3.commits && BeforeLoss(s5)
  {
    hide Integrity, Covered, Planned, AfterFirst, WithPackFiles, Closure;
    var s1 := AfterFirst();
    var s3 := WithPackFiles(s1, LaterPlan(LOST, 1));
    FirstIsSound();
    LaterIsGenuine(s1, LOST, 1);
    CrashedPublish(s1, LOST, 1);
    LaterIsGenuine(s3, NEWER, 2);
    CrashedPublish(s3, NEWER, 2);
  }

  lemma HeadBeforeLoss(s: State)
    requires BeforeLoss(s)
    ensures s.head.Some?
  {
  }

  /** Publishes and fetches, two of the publishes stopping halfway, and then a sweep. */
  function RunThrough(s1: State, s3: State, s5: State, s7: State): Trace {
    Trace([Fetch(Branch(ANCIENT), None), Publish(Publication(ANCIENT, 0)), Fetch(Branch(LOST), None),
           Publish(Publication(LOST, 1)), Fetch(Branch(NEWER), None), Publish(Publication(NEWER, 2)), Sweep(3)],
          [EMPTY, EMPTY, s1, s1, s3, s3, s5, s7],
          [map[], Branch(ANCIENT), Branch(ANCIENT), Branch(LOST), Branch(LOST), Branch(NEWER), Branch(NEWER), Branch(NEWER)],
          [true, true, true, false, true, false, true],
          [false, false, false, false, false, false, false])
  }

  lemma FetchStep(s: State, refs: map<RefName, ObjectId>, tip: ObjectId)
    ensures Step(Fetch(Branch(tip), None), s, refs, s, Branch(tip), true)
  {
    hide Kept;
    KeptStart(map[], s, true, true);
  }

  lemma RunOf(s1: State, s3: State, s5: State, s7: State)
    requires Step(Publish(Publication(ANCIENT, 0)), EMPTY, Branch(ANCIENT), s1, Branch(ANCIENT), true)
    requires Step(Publish(Publication(LOST, 1)), s1, Branch(LOST), s3, Branch(LOST), false)
    requires Step(Publish(Publication(NEWER, 2)), s3, Branch(NEWER), s5, Branch(NEWER), false)
    requires Step(Sweep(3), s5, Branch(NEWER), s7, Branch(NEWER), true)
    ensures IsRun(map[], false, RunThrough(s1, s3, s5, s7))
  {
    FetchStep(EMPTY, map[], ANCIENT);
    FetchStep(s1, Branch(ANCIENT), LOST);
    FetchStep(s3, Branch(LOST), NEWER);
    hide Outcome, Cautious, Kept, Branch, Publication, Smooth;
    var r := RunThrough(s1, s3, s5, s7);
    forall i | 0 <= i < 7
      ensures Step(r.ops[i], r.states[i], r.refs[i], r.states[i + 1], r.refs[i + 1], r.done[i])
    {
      assert i in {0, 1, 2, 3, 4, 5, 6};
    }
  }

  /** A run at whose end, and not before the sweep, a complete commit manifest leads to packs without the commit. */
  lemma LossyRun() returns (s1: State, s3: State, s5: State, s7: State)
    ensures IsRun(map[], false, RunThrough(s1, s3, s5, s7))
    ensures Covered(map[], s5) && !Covered(map[], s7)
  {
    StatesBeforeLoss();
    FirstStep();
    hide Step, Covered, AfterFirst, WithPackFiles, Lossy, BeforeLoss, Integrity, Planned, IsRun;
    s1 := AfterFirst();
    s3 := WithPackFiles(s1, LaterPlan(LOST, 1));
    s5 := AfterCrashes();
    s7 := Lossy(s5);
    CrashStep(s1, LOST, 1, s3);
    CrashStep(s3, NEWER, 2, s5);
    LossySweep(s5);
    RunOf(s1, s3, s5, s7);
  }
}
