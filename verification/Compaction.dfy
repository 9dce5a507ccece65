/**
  Compaction: the head generation's many packs are replaced by one repack of the
  local repository, published as a fresh generation that everything is then
  repointed to.
*/
module Compaction {
  import opened Wrappers
  import opened ObjectGraph
  import opened StoreState
  import opened LocalRepo
  import opened GenerationStore
  import opened Retention

  /** Every commit that some generation lists. */
  function ListedCommits(s: State): set<ObjectId> {
    set x, c | x in s.generations && c in s.generations[x].commits :: c
  }

  /** Everything the store promises to hold is within reach of the refs. */
  predicate ReachesAll(s: State, reach: set<ObjectId>) {
    && ListedCommits(s) <= reach
    && (forall c | c in s.commits && s.commits[c].complete :: c in reach)
    && (s.head.Some? ==> forall t | t in s.head.value.tips :: t in reach)
  }

  /** The refs once the head generation's snapshot has been applied. */
  function HydratedRefs(s: State, refs: map<RefName, ObjectId>): map<RefName, ObjectId> {
    if s.head.Some? && s.head.value.generation in s.generations
    then refs + s.generations[s.head.value.generation].refs else refs
  }

  function WithPacks(s: State, keys: set<PackKey>, now: Time): State {
    s.(packs := Filled(s.packs, keys, now))
  }

  /** Gives a value to those keys that have none. */
  function Filled<K, V>(m: map<K, V>, keys: set<K>, v: V): map<K, V> {
    m + map k | k in keys && k !in m :: v
  }

  lemma FilledAdd<K, V>(m: map<K, V>, keys: set<K>, k: K, v: V)
    ensures Filled(m, {}, v) == m
    ensures Filled(m, keys + {k}, v) == if k in Filled(m, keys, v) then Filled(m, keys, v) else Filled(m, keys, v)[k := v]
  {
  }

  function WithComplete(s: State, commits: set<ObjectId>, id: GenerationId, now: Time): State {
    s.(commits := s.commits + map c | c in commits :: CommitManifest(id, true, now))
  }

  /** The store once packs, manifest and head of the new generation are in place. */
  function Installed(s: State, id: GenerationId, m: GenerationManifest, now: Time): State
    requires s.head.Some?
  {
    Applied(Applied(WithPacks(s, m.PackKeys(), now), PutGeneration(id, m)), PutHead(Head(id, s.head.value.tips, now)))
  }

  /** The store after a compaction that ran to its end. */
  function Compacted(s: State, id: GenerationId, m: GenerationManifest, now: Time): State
    requires s.head.Some?
  {
    WithComplete(Repointed(Installed(s, id, m, now), s.generations.Keys, id), AsSet(m.commits), id, now)
  }

  /** A generation made by compaction: one repack of what the refs reach, listing everything listed before. */
  predicate Repacked(g: Graph, s: State, refs: map<RefName, ObjectId>, now: Time, m: GenerationManifest) {
    && m.Objects() == Closure(g, HydratedRefs(s, refs).Values)
    && AsSet(m.commits) == ListedCommits(s)
    && m.refs == HydratedRefs(s, refs)
    && m.createdAt == now && m.packs != []
    && (forall i | i in m.packs :: i.kind == Base)
  }

  /** What matters for coverage about the outcome: one generation more, and everything names it. */
  ghost predicate Shaped(s: State, v: State, id: GenerationId, m: GenerationManifest)
    requires s.head.Some?
  {
    && v.generations == s.generations[id := m]
    && v.head.Some? && v.head.value.generation == id && v.head.value.tips == s.head.value.tips
    && v.commits.Keys == s.commits.Keys + AsSet(m.commits)
    && (forall c | c in v.commits :: v.commits[c].generation == id)
    && (forall c | c in v.commits :: v.commits[c].complete <==> c in AsSet(m.commits) || s.commits[c].complete)
  }

  lemma CompactedIsShaped(s: State, id: GenerationId, m: GenerationManifest, now: Time)
    requires s.head.Some? && Integrity(s)
    ensures Shaped(s, Compacted(s, id, m, now), id, m)
  {
    CommitsNameStored(s);
    var u := Installed(s, id, m, now);
    assert u.generations == s.generations[id := m] && u.commits == s.commits && u.head == Some(Head(id, s.head.value.tips, now));
    hide Installed, Repointed, WithComplete, Integrity, Shaped;
    RepointedFields(u, s.generations.Keys, id);
    CompletedIsShaped(s, Repointed(u, s.generations.Keys, id), id, m, now);
  }

  lemma CommitsNameStored(s: State)
    requires Integrity(s)
    ensures forall c | c in s.commits :: s.commits[c].generation in s.generations.Keys
  {
    forall c | c in s.commits
      ensures s.commits[c].generation in s.generations.Keys
    {
      assert s.commits[c].generation in Referenced(s);
      assert Usable(s, s.commits[c].generation);
    }
  }

  lemma CompletedIsShaped(s: State, t: State, id: GenerationId, m: GenerationManifest, now: Time)
    requires s.head.Some? && t.head == Some(Head(id, s.head.value.tips, now)) && t.generations == s.generations[id := m]
    requires t.commits.Keys == s.commits.Keys
    requires forall c | c in s.commits ::
               s.commits[c].generation in s.generations.Keys && t.commits[c] == MovedCommit(s.commits[c], s.generations.Keys, id)
    ensures Shaped(s, WithComplete(t, AsSet(m.commits), id, now), id, m)
  {
    hide AsSet;
  }

  lemma ShapedCommits(s: State, v: State, id: GenerationId, m: GenerationManifest)
    requires s.head.Some? && Shaped(s, v, id, m)
    ensures CommitsCovered(v) <==>
              AsSet(m.commits) <= m.Objects() && forall c | c in s.commits && s.commits[c].complete :: c in m.Objects()
  {
    assert ObjectsOf(v, id) == m.Objects();
    if CommitsCovered(v) {
      forall c | c in AsSet(m.commits) || (c in s.commits && s.commits[c].complete)
        ensures c in m.Objects()
      {
        assert c in v.commits && v.commits[c].complete;
      }
    }
  }

  lemma ShapedGenerations(g: Graph, s: State, v: State, id: GenerationId, m: GenerationManifest)
    requires s.head.Some? && Shaped(s, v, id, m)
    requires Covered(g, s) && Closed(g, m.Objects())
    ensures (forall x | x in v.generations :: SelfContained(g, v.generations[x])) <==> AsSet(m.commits) <= m.Objects()
  {
    assert forall c :: c in m.commits <==> c in AsSet(m.commits);
    if AsSet(m.commits) <= m.Objects() {
      assert SelfContained(g, m);
    }
    assert id in v.generations && v.generations[id] == m;
  }

  /**
    Compaction keeps coverage exactly when the refs reach everything the store
    promised: what no ref reaches, the repack drops for good.
  */
  lemma CompactionCoverage(g: Graph, s: State, refs: map<RefName, ObjectId>, id: GenerationId, m: GenerationManifest, now: Time)
    requires s.head.Some? && Integrity(s) && Covered(g, s)
    requires Repacked(g, s, refs, now, m)
    ensures Covered(g, Compacted(s, id, m, now)) <==> ReachesAll(s, Closure(g, HydratedRefs(s, refs).Values))
  {
    hide SelfContained, Integrity, Closure, Compacted, CommitsCovered;
    var v := Compacted(s, id, m, now);
    CompactedIsShaped(s, id, m, now);
    ShapedCommits(s, v, id, m);
    ShapedGenerations(g, s, v, id, m);
    assert HeadCovered(v) <==> forall t | t in s.head.value.tips :: t in m.Objects();
  }

  // ---------------------------------------------------------------- the steps

  method CollectListed(s: State, ids: seq<GenerationId>) returns (commits: seq<ObjectId>)
    requires forall x :: x in ids <==> x in s.generations
    ensures AsSet(commits) == ListedCommits(s)
  {
    commits := [];
    for i := 0 to |ids|
      invariant forall c :: c in commits <==> exists x :: x in ids[..i] && c in s.generations[x].commits
    {
      assert ids[..i + 1] == ids[..i] + [ids[i]];
      var listed := s.generations[ids[i]].commits;
      for j := 0 to |listed|
        invariant forall c :: c in commits <==>
                    (exists x :: x in ids[..i] && c in s.generations[x].commits) || c in listed[..j]
      {
        assert listed[..j + 1] == listed[..j] + [listed[j]];
        commits := PushUnique(commits, listed[j]);
      }
      assert listed[..|listed|] == listed;
    }
    assert ids[..|ids|] == ids;
  }

  /** One base pack entry per distinct pack file. */
  method Entered(keys: seq<PackKey>) returns (packs: seq<PackInfo>)
    ensures forall k :: k in KeysOf(packs) <==> k in keys
    ensures forall i | i in packs :: i.kind == Base
    ensures packs == [] <==> keys == []
    ensures forall i, j | 0 <= i < j < |packs| :: packs[i].key != packs[j].key
  {
    packs := [];
    for i := 0 to |keys|
      invariant forall k :: k in KeysOf(packs) <==> k in keys[..i]
      invariant forall p | p in packs :: p.kind == Base
      invariant packs == [] <==> i == 0
      invariant forall i, j | 0 <= i < j < |packs| :: packs[i].key != packs[j].key
    {
      assert keys[..i + 1] == keys[..i] + [keys[i]];
      if keys[i] !in KeysOf(packs) {
        KeysOfNext(packs + [PackInfo(keys[i], Base)], |packs|);
        assert (packs + [PackInfo(keys[i], Base)])[..|packs|] == packs;
        assert forall j | 0 <= j < |packs| :: packs[j].key in KeysOf(packs);
        packs := packs + [PackInfo(keys[i], Base)];
        assert packs[..|packs|] == packs;
      }
    }
    assert keys[..|keys|] == keys;
  }

  /** The packs that are not stored yet, each once. */
  function UploadScript(s: State, packs: seq<PackInfo>, now: Time): seq<Write> {
    if packs == [] then []
    else
      var n, key := |packs| - 1, packs[|packs| - 1].key;
      UploadScript(s, packs[..n], now)
      + if key in s.packs || key in KeysOf(packs[..n]) then [] else [PutPack(key, now)]
  }

  lemma NextUpload(s: State, packs: seq<PackInfo>, i: nat, now: Time)
    requires i < |packs|
    ensures var key := packs[i].key;
            var so := UploadScript(s, packs[..i], now);
            UploadScript(s, packs[..i + 1], now)
            == if key in s.packs || key in KeysOf(packs[..i]) then so else so + [PutPack(key, now)]
  {
    hide KeysOf;
    assert packs[..i + 1][..i] == packs[..i] && packs[..i + 1][i] == packs[i];
  }

  lemma {:induction false} UploadsGrow(s: State, packs: seq<PackInfo>, i: nat, now: Time)
    requires i <= |packs|
    ensures UploadScript(s, packs[..i], now) <= UploadScript(s, packs, now)
    ensures i < |packs| ==>
              var key := packs[i].key;
              var so := UploadScript(s, packs[..i], now);
              UploadScript(s, packs[..i + 1], now)
              == if key in s.packs || key in KeysOf(packs[..i]) then so else so + [PutPack(key, now)]
    decreases |packs| - i
  {
    hide UploadScript;
    if i < |packs| {
      NextUpload(s, packs, i, now);
      UploadsGrow(s, packs, i + 1, now);
    } else {
      assert packs[..i] == packs;
    }
  }

  lemma NothingUploaded(s: State, packs: seq<PackInfo>, i: nat, now: Time)
    requires i <= |packs|
    ensures packs[..0] == [] && AfterWrites(s, UploadScript(s, [], now)) == s
    ensures WithPacks(s, KeysOf(packs[..i]), now).packs.Keys == s.packs.Keys + KeysOf(packs[..i])
  {
  }

  method UploadPacks(store: ObjectStore, packs: seq<PackInfo>, now: Time, ghost g: Graph) returns (ok: bool)
    modifies store
    ensures store.faults == old(store.faults) + if ok then 0 else 1
    ensures ok ==> store.state == WithPacks(old(store.state), KeysOf(packs), now)
    ensures Reached(false, old(store.state), UploadScript(old(store.state), packs, now), store.state)
    ensures ok ==> store.state == AfterWrites(old(store.state), UploadScript(old(store.state), packs, now))
    ensures store.state == old(store.state).(packs := store.state.packs)
    ensures old(store.state).packs.Keys <= store.state.packs.Keys
    ensures Kept(g, old(store.state), store.state, true, true)
  {
    hide Kept, Integrity, Covered, WithPacks, KeysOf, Reached, AfterWrites, UploadScript;
    ghost var s := store.state;
    KeptStart(g, s, true, true);
    UploadMore(s, packs, 0, now);
    NothingUploaded(s, packs, 0, now);
    ghost var all := UploadScript(s, packs, now);
    for i := 0 to |packs|
      invariant store.faults == old(store.faults)
      invariant store.state == AfterWrites(s, UploadScript(s, packs[..i], now))
      invariant store.state == WithPacks(s, KeysOf(packs[..i]), now)
      invariant store.state == s.(packs := store.state.packs)
      invariant s.packs.Keys <= store.state.packs.Keys
      invariant Kept(g, s, store.state, true, true)
    {
      UploadMore(s, packs, i, now);
      UploadsGrow(s, packs, i, now);
      NothingUploaded(s, packs, i, now);
      ReachedAfter(s, UploadScript(s, packs[..i], now), all, store.state);
      AfterOneMore(s, UploadScript(s, packs[..i], now), PutPack(packs[i].key, now));
      if packs[i].key !in store.state.packs {
        ghost var before := store.state;
        ok := store.Perform(PutPack(packs[i].key, now), g);
        KeptThen(g, s, before, store.state, true, true, true, true);
        if !ok {
          return;
        }
      }
    }
    ReachedEnds(false, s, all);
    return true;
  }

  lemma UploadMore(s: State, packs: seq<PackInfo>, i: nat, now: Time)
    requires i <= |packs|
    ensures WithPacks(s, KeysOf(packs[..0]), now) == s
    ensures packs[..|packs|] == packs
    ensures i < |packs| ==>
              var t := WithPacks(s, KeysOf(packs[..i]), now);
              WithPacks(s, KeysOf(packs[..i + 1]), now)
              == if packs[i].key in t.packs then t else Applied(t, PutPack(packs[i].key, now))
  {
    hide WithPacks;
    assert packs[..0] == [] && KeysOf([]) == {};
    WithPacksAdd(s, {}, PackKey({}, 0), now);
    if i < |packs| {
      KeysOfNext(packs, i);
      WithPacksAdd(s, KeysOf(packs[..i]), packs[i].key, now);
    }
  }

  lemma WithPacksAdd(s: State, keys: set<PackKey>, key: PackKey, now: Time)
    ensures WithPacks(s, {}, now) == s
    ensures var t := WithPacks(s, keys, now);
            WithPacks(s, keys + {key}, now) == if key in t.packs then t else Applied(t, PutPack(key, now))
  {
    hide Filled;
    FilledAdd(s.packs, keys, key, now);
  }

  function CompleteScript(commits: seq<ObjectId>, id: GenerationId, now: Time): seq<Write> {
    seq(|commits|, i requires 0 <= i < |commits| => PutCommit(commits[i], CommitManifest(id, true, now)))
  }

  lemma CompletesGrow(s: State, commits: seq<ObjectId>, i: nat, id: GenerationId, now: Time)
    requires i <= |commits|
    ensures |CompleteScript(commits, id, now)| == |commits|
    ensures CompleteScript(commits, id, now)[..0] == [] && AfterWrites(s, []) == s
    ensures CompleteScript(commits, id, now)[..|commits|] == CompleteScript(commits, id, now)
    ensures i < |commits| ==>
              CompleteScript(commits, id, now)[..i + 1]
              == CompleteScript(commits, id, now)[..i] + [PutCommit(commits[i], CommitManifest(id, true, now))]
  {
  }

  method MarkComplete(store: ObjectStore, commits: seq<ObjectId>, id: GenerationId, now: Time, ghost g: Graph)
    returns (ok: bool)
    modifies store
    ensures store.faults == old(store.faults) + if ok then 0 else 1
    ensures ok ==> store.state == WithComplete(old(store.state), AsSet(commits), id, now)
    ensures Reached(false, old(store.state), CompleteScript(commits, id, now), store.state)
    ensures ok ==> store.state == AfterWrites(old(store.state), CompleteScript(commits, id, now))
    ensures store.state == old(store.state).(commits := store.state.commits)
    ensures Kept(g, old(store.state), store.state, Usable(old(store.state), id), AsSet(commits) <= ObjectsOf(old(store.state), id))
  {
    hide Kept, Integrity, Covered, WithComplete, AsSet, Reached, AfterWrites, CompleteScript;
    ghost var s, ws := store.state, CompleteScript(commits, id, now);
    KeptStart(g, s, Usable(s, id), AsSet(commits) <= ObjectsOf(s, id));
    MarkMore(s, commits, 0, id, now);
    CompletesGrow(s, commits, 0, id, now);
    for i := 0 to |commits|
      invariant store.faults == old(store.faults)
      invariant i <= |ws| && store.state == AfterWrites(s, ws[..i])
      invariant store.state == WithComplete(s, AsSet(commits[..i]), id, now)
      invariant store.state == s.(commits := store.state.commits)
      invariant Kept(g, s, store.state, Usable(s, id), AsSet(commits) <= ObjectsOf(s, id))
    {
      MarkMore(s, commits, i, id, now);
      CompletesGrow(s, commits, i, id, now);
      ReachedAfter(s, ws[..i], ws, store.state);
      AfterOneMore(s, ws[..i], PutCommit(commits[i], CommitManifest(id, true, now)));
      ghost var before := store.state;
      var m := CommitManifest(id, true, now);
      ok := store.Perform(PutCommit(commits[i], m), g);
      KeptThen(g, s, before, store.state, Usable(s, id), AsSet(commits) <= ObjectsOf(s, id),
               Usable(before, id), Covering(g, before, PutCommit(commits[i], m)));
      if !ok {
        return;
      }
    }
    ReachedEnds(false, s, ws);
    return true;
  }

  lemma MarkMore(s: State, commits: seq<ObjectId>, i: nat, id: GenerationId, now: Time)
    requires i <= |commits|
    ensures WithComplete(s, AsSet(commits[..0]), id, now) == s
    ensures commits[..|commits|] == commits
    ensures i < |commits| ==>
              && WithComplete(s, AsSet(commits[..i + 1]), id, now)
                 == Applied(WithComplete(s, AsSet(commits[..i]), id, now), PutCommit(commits[i], CommitManifest(id, true, now)))
              && commits[i] in AsSet(commits)
  {
    hide WithComplete;
    assert commits[..0] == [] && AsSet([]) == {};
    WithCompleteAdd(s, {}, ObjectId(0), id, now);
    if i < |commits| {
      assert commits[..i + 1] == commits[..i] + [commits[i]];
      assert AsSet(commits[..i + 1]) == AsSet(commits[..i]) + {commits[i]};
      WithCompleteAdd(s, AsSet(commits[..i]), commits[i], id, now);
    }
  }

  lemma WithCompleteAdd(s: State, commits: set<ObjectId>, c: ObjectId, id: GenerationId, now: Time)
    ensures WithComplete(s, {}, id, now) == s
    ensures WithComplete(s, commits + {c}, id, now)
            == Applied(WithComplete(s, commits, id, now), PutCommit(c, CommitManifest(id, true, now)))
  {
    assert s.commits + map[] == s.commits;
  }

  datatype CompactionReport = CompactionReport(oldPackCount: nat, oldGenerations: seq<GenerationId>, newGeneration: GenerationId)

  /** The HEAD once the head generation's snapshot has been applied. */
  function HydratedHead(s: State, headRef: Option<RefName>): Option<RefName> {
    if s.head.Some? && s.head.value.generation in s.generations && s.generations[s.head.value.generation].headRef.Some?
    then s.generations[s.head.value.generation].headRef else headRef
  }

  /** The head generation is stored, and each of its packs is stored or already here. */
  predicate Hydratable(s: State, local: set<PackKey>) {
    && s.head.Some? && s.head.value.generation in s.generations
    && s.generations[s.head.value.generation].PackKeys() <= s.packs.Keys + local
  }

  /** Hydrates the head generation and repacks: the manifest of the generation to come. */
  method MakeCompacted(s: State, repo: Repo, ids: seq<GenerationId>, now: Time) returns (r: Result<GenerationManifest, Error>)
    requires s.head.Some?
    requires forall x :: x in ids <==> x in s.generations
    modifies repo
    ensures r.Ok? ==> Repacked(repo.graph, s, old(repo.refs), now, r.value)
    ensures r.Ok? ==> r.value.headRef == ServedHead(HydratedRefs(s, old(repo.refs)), HydratedHead(s, old(repo.headRef)))
    ensures old(repo.failures) <= repo.failures && repo.gaps == old(repo.gaps)
    ensures r.Ok? ==> repo.failures == old(repo.failures)
    ensures r.Err? ==> repo.failures > old(repo.failures) || !Hydratable(s, old(repo.packs)) || HydratedRefs(s, old(repo.refs)) == map[]
    ensures repo.refs == old(repo.refs) || repo.refs == HydratedRefs(s, old(repo.refs))
  {
    hide Closure;
    var commits := CollectListed(s, ids);
    ghost var refs := repo.refs;
    var hydrated := repo.HydrateGeneration(s, s.head.value.generation);
    if hydrated.Err? {
      return Err(hydrated.error);
    }
    assert repo.refs == HydratedRefs(s, refs) && repo.headRef == HydratedHead(s, old(repo.headRef));
    var repacked := repo.RepackForServing();
    if repacked.Err? {
      return Err(repacked.error);
    }
    var packs := Entered(repacked.value);
    if packs == [] {
      return Err(Internal);
    }
    var headRef := if repo.headRef.Some? && repo.headRef.value in repo.refs then repo.headRef else None;
    var m := GenerationManifest(now, packs, repo.refs, headRef, commits);
    assert m.Objects() == repo.Reachable() by {
      assert m.PackKeys() == KeysOf(packs);
      assert forall k :: k in m.PackKeys() <==> k in repacked.value;
    }
    return Ok(m);
  }

  /** What every outcome of a compaction leaves in place: nothing stored is taken away. */
  ghost predicate NothingIsDeleted(s: State, t: State) {
    && s.packs.Keys <= t.packs.Keys
    && (forall x | x in s.generations :: x in t.generations && t.generations[x] == s.generations[x])
  }

  /** Uploads the packs and then the manifest of the new generation; nothing names it yet. */
  method UploadGeneration(store: ObjectStore, id: GenerationId, m: GenerationManifest, now: Time, ghost g: Graph)
    returns (r: Result<(), Error>)
    modifies store
    ensures store.faults == old(store.faults) + if r == Err(Unavailable) then 1 else 0
    ensures r.Err? && r != Err(Unavailable) ==>
              r == Err(Conflict) && id in old(store.state).generations && old(store.state).generations[id] != m
    ensures r.Ok? ==> store.state == Applied(WithPacks(old(store.state), m.PackKeys(), now), PutGeneration(id, m))
    ensures r.Ok? ==> Usable(store.state, id)
    ensures var ws := UploadScript(old(store.state), m.packs, now) + [PutGeneration(id, m)];
            && Reached(false, old(store.state), ws, store.state)
            && (r.Ok? ==> store.state == AfterWrites(old(store.state), ws))
    ensures NothingIsDeleted(old(store.state), store.state)
    ensures Kept(g, old(store.state), store.state, true, SelfContained(g, m))
  {
    hide Kept, Covered, Integrity, SelfContained, Reached, AfterWrites, UploadScript;
    ghost var s := store.state;
    ghost var ws, w := UploadScript(s, m.packs, now), PutGeneration(id, m);
    AfterOneMore(s, ws, w);
    var ok := UploadPacks(store, m.packs, now, g);
    ghost var t := store.state;
    ReachedWithin(false, false, s, ws, [w], t);
    ReachedEnds(false, s, ws + [w]);
    KeptThen(g, s, s, t, true, SelfContained(g, m), true, true) by { KeptStart(g, s, true, SelfContained(g, m)); }
    if !ok {
      return Err(Unavailable);
    }
    assert KeysOf(m.packs) == m.PackKeys();
    r := WriteGenerationIfAbsentOrMatches(store, id, m, g);
    KeptThen(g, s, t, store.state, true, SelfContained(g, m), m.PackKeys() <= t.packs.Keys, SelfContained(g, m));
  }

  /** The head, every name, and the completion marks. */
  function SwitchScript(
    s: State, m: GenerationManifest, id: GenerationId, now: Time, ck: seq<ObjectId>, rk: seq<RefName>, olds: set<GenerationId>): seq<Write>
    requires s.head.Some?
  {
    [PutHead(Head(id, s.head.value.tips, now))] + RepointScript(s, ck, rk, olds, id) + CompleteScript(m.commits, id, now)
  }

  /** Every write of a compaction: packs, manifest, head, names, completion marks. */
  function CompactScript(
    s: State, m: GenerationManifest, id: GenerationId, now: Time, ck: seq<ObjectId>, rk: seq<RefName>): seq<Write>
    requires s.head.Some?
  {
    UploadScript(s, m.packs, now) + [PutGeneration(id, m)] + SwitchScript(s, m, id, now, ck, rk, s.generations.Keys)
  }

  lemma RepointScriptDepends(s: State, t: State, ck: seq<ObjectId>, rk: seq<RefName>, olds: set<GenerationId>, id: GenerationId)
    requires s.commits == t.commits && s.refs == t.refs && s.defaultRef == t.defaultRef
    ensures RepointScript(s, ck, rk, olds, id) == RepointScript(t, ck, rk, olds, id)
  {
    hide MoveCommits, MoveRefs, MoveDefault;
    CommitMovesDepend(s, t, ck, olds, id);
    MovesDepend(s, t, rk, olds, id);
  }

  /** Where the switch stands before the head is swung, while names move, and while commits are marked. */
  lemma SwitchReached(
    shared: bool, read: State, s: State, m: GenerationManifest, id: GenerationId, now: Time,
    ck: seq<ObjectId>, rk: seq<RefName>, olds: set<GenerationId>, t: State, part: nat)
    requires read.head.Some? && s.commits == read.commits && s.refs == read.refs && s.defaultRef == read.defaultRef
    requires var u := Applied(s, PutHead(Head(id, read.head.value.tips, now)));
             match part
             case 0 => SameButHead(shared, s, t)
             case 1 => Reached(false, u, RepointScript(u, ck, rk, olds, id), t)
             case _ => Reached(false, AfterWrites(u, RepointScript(u, ck, rk, olds, id)), CompleteScript(m.commits, id, now), t)
    ensures Reached(shared, s, SwitchScript(read, m, id, now, ck, rk, olds), t)
    ensures var u := Applied(s, PutHead(Head(id, read.head.value.tips, now)));
            AfterWrites(s, SwitchScript(read, m, id, now, ck, rk, olds))
            == AfterWrites(AfterWrites(u, RepointScript(u, ck, rk, olds, id)), CompleteScript(m.commits, id, now))
  {
    hide AfterWrites, Reached, SameButHead, RepointScript, CompleteScript;
    var w := PutHead(Head(id, read.head.value.tips, now));
    var u, a, b, c := Applied(s, w), [w], RepointScript(read, ck, rk, olds, id), CompleteScript(m.commits, id, now);
    RepointScriptDepends(read, u, ck, rk, olds, id);
    AfterOneMore(s, [], w);
    assert [] + [w] == a;
    assert SwitchScript(read, m, id, now, ck, rk, olds) == a + (b + c);
    AfterBoth(s, a, b + c);
    AfterBoth(u, b, c);
    if part == 0 {
      assert SwitchScript(read, m, id, now, ck, rk, olds)[..0] == [];
      ReachedAt(shared, s, SwitchScript(read, m, id, now, ck, rk, olds), 0, t);
    } else {
      if part == 1 {
        ReachedWithin(false, shared, u, b, c, t);
      } else {
        ReachedBeyond(false, u, b, c, t);
        ReachedAnyway(shared, u, b + c, t);
      }
      ReachedBeyond(shared, s, a, b + c, t);
    }
  }

  /** Offers the head of the new generation, which is taken only if the head still is what was read. */
  method SwingHead(
    store: ObjectStore, read: State, ids: seq<GenerationId>, id: GenerationId, m: GenerationManifest, now: Time, ghost g: Graph)
    returns (r: Result<bool, Error>)
    requires Usable(store.state, id) && read.head.Some?
    modifies store
    ensures store.faults == old(store.faults) + if r == Err(Unavailable) then 1 else 0
    ensures r.Err? ==> r == Err(Unavailable)
    ensures r == Ok(true) ==>
              store.state == Applied(old(store.state).(head := read.head), PutHead(Head(id, read.head.value.tips, now)))
    ensures r != Ok(true) ==> SameButHead(store.shared, old(store.state), store.state)
    ensures r == Ok(false) ==> store.state.head != read.head && (store.shared || old(store.state).head != read.head)
    ensures Kept(g, old(store.state), store.state, true, MovesSafely(old(store.state), read, ids, id, m))
  {
    hide Kept, Integrity, Covered, Usable, MovesSafely, TipsCovered, ObjectsOf;
    ghost var s := store.state;
    ghost var safe := MovesSafely(s, read, ids, id, m);
    store.HeadMayMove(g);
    ghost var t := store.state;
    MovesSafelyStays(s, t, read, ids, id, m);
    KeptThen(g, s, s, t, true, safe, true, true) by { KeptStart(g, s, true, safe); }
    var mine := Head(id, read.head.value.tips, now);
    if safe {
      MovesSafelyMeans(t, read, ids, id, m, now);
    }
    r := SwapHead(store, mine, read.head, g);
    KeptThen(g, s, t, store.state, true, safe, Usable(t, mine.generation), TipsCovered(t, mine));
  }

  /** Swings the head to the new generation if nobody has moved it, then moves every name over. */
  method SwitchOver(
    store: ObjectStore, read: State, ids: seq<GenerationId>, id: GenerationId, m: GenerationManifest, now: Time, ghost g: Graph)
    returns (r: Result<bool, Error>, ghost ck: seq<ObjectId>, ghost rk: seq<RefName>)
    requires Integrity(store.state) && Usable(store.state, id)
    requires read.head.Some?
    requires store.state.generations == read.generations[id := m]
    requires store.state.commits == read.commits && store.state.refs == read.refs && store.state.defaultRef == read.defaultRef
    modifies store
    ensures store.faults == old(store.faults) + if r == Err(Unavailable) then 1 else 0
    ensures r.Err? ==> r == Err(Unavailable)
    ensures r == Ok(false) ==> store.shared || old(store.state).head != read.head
    ensures r == Ok(false) ==> store.state == old(store.state).(head := store.state.head) && store.state.head != read.head
    ensures Lists(ck, read.commits.Keys) && Lists(rk, read.refs.Keys)
    ensures Reached(store.shared, old(store.state), SwitchScript(read, m, id, now, ck, rk, AsSetOf(ids)), store.state)
    ensures r == Ok(true) ==>
              var t := Applied(old(store.state).(head := read.head), PutHead(Head(id, read.head.value.tips, now)));
              && store.state == WithComplete(Repointed(t, AsSetOf(ids), id), AsSet(m.commits), id, now)
              && store.state == AfterWrites(old(store.state), SwitchScript(read, m, id, now, ck, rk, AsSetOf(ids)))
    ensures store.state.packs == old(store.state).packs && store.state.generations == old(store.state).generations
    ensures Kept(g, old(store.state), store.state, true, MovesSafely(old(store.state), read, ids, id, m))
  {
    hide Kept, Integrity, Covered, Repointed, WithComplete, AsSet, Usable, TakesOver, Referenced, Reached, AfterWrites,
         RepointScript, CompleteScript, SwitchScript, Lists, MovesSafely, ObjectsOf;
    ghost var s := store.state;
    ghost var safe := MovesSafely(s, read, ids, id, m);
    ghost var olds := AsSetOf(ids);
    ck := ListingExists(read.commits.Keys);
    rk := ListingExists(read.refs.Keys);
    r := SwingHead(store, read, ids, id, m, now, g);
    ghost var u := store.state;
    if r != Ok(true) {
      SwitchReached(store.shared, read, s, m, id, now, ck, rk, olds, u, 0);
      return;
    }
    IntegrityKept(g, s, u, safe);
    MovesSafelyStays(s, u, read, ids, id, m);
    if safe {
      MovesSafelyMeans(u, read, ids, id, m, now);
    }
    var ok;
    ok, ck, rk := Repoint(store, AsSetOf(ids), id, g);
    ghost var v := store.state;
    SwitchReached(store.shared, read, s, m, id, now, ck, rk, olds, v, 1);
    KeptThen(g, s, u, v, true, safe, Usable(u, id), TakesOver(u, olds, id));
    if !ok {
      return Err(Unavailable), ck, rk;
    }
    UsableElsewhere(u, v, id);
    ok := MarkComplete(store, m.commits, id, now, g);
    SwitchReached(store.shared, read, s, m, id, now, ck, rk, olds, store.state, 2);
    KeptThen(g, s, v, store.state, true, safe, Usable(v, id), AsSet(m.commits) <= ObjectsOf(v, id));
    r := if ok then Ok(true) else Err(Unavailable);
  }

  function AsSetOf(ids: seq<GenerationId>): set<GenerationId> {
    set x | x in ids
  }

  /** The new generation holds the head's tips, the commits it lists and those of the old generations. */
  predicate MovesSafely(s: State, read: State, ids: seq<GenerationId>, id: GenerationId, m: GenerationManifest)
    requires read.head.Some?
  {
    && (forall t | t in read.head.value.tips :: t in ObjectsOf(s, id))
    && AsSet(m.commits) <= ObjectsOf(s, id)
    && TakesOver(s, AsSetOf(ids), id)
  }

  lemma MovesSafelyMeans(s: State, read: State, ids: seq<GenerationId>, id: GenerationId, m: GenerationManifest, now: Time)
    requires read.head.Some? && MovesSafely(s, read, ids, id, m)
    ensures TipsCovered(s, Head(id, read.head.value.tips, now))
    ensures AsSet(m.commits) <= ObjectsOf(s, id) && TakesOver(s, AsSetOf(ids), id)
  {
  }

  lemma MovesSafelyStays(s: State, t: State, read: State, ids: seq<GenerationId>, id: GenerationId, m: GenerationManifest)
    requires read.head.Some?
    requires t == s.(head := t.head)
    ensures MovesSafely(t, read, ids, id, m) == MovesSafely(s, read, ids, id, m)
    ensures Usable(t, id) == Usable(s, id)
    ensures ObjectsOf(t, id) == ObjectsOf(s, id)
  {
  }

  lemma UsableElsewhere(s: State, t: State, id: GenerationId)
    requires s.packs == t.packs && s.generations == t.generations
    ensures Usable(t, id) == Usable(s, id) && ObjectsOf(t, id) == ObjectsOf(s, id)
  {
  }

  lemma IntegrityKept(g: Graph, s: State, t: State, covering: bool)
    requires Integrity(s) && Kept(g, s, t, true, covering)
    ensures Integrity(t)
  {
  }

  /** The head's generation is stored and lists more packs than the threshold. */
  predicate NeedsCompaction(s: State, threshold: nat) {
    && s.head.Some? && s.head.value.generation in s.generations
    && |s.generations[s.head.value.generation].packs| > threshold
  }

  /**
    Compacts the head's chain when it lists more packs than the threshold.  At
    every crash point integrity holds and nothing stored has been taken away.
    Coverage survives when the refs reach everything the store promised; a
    compaction that reports success has kept it exactly then.
  */
  method CompactGenerationChain(
    store: ObjectStore, repo: Repo, threshold: nat, dryRun: bool, id: GenerationId, now: Time)
    returns (r: Result<Option<CompactionReport>, Error>, ghost made: Option<GenerationManifest>,
             ghost ck: seq<ObjectId>, ghost rk: seq<RefName>)
    requires Integrity(store.state)
    modifies store, repo
    ensures repo.refs == old(repo.refs) || repo.refs == HydratedRefs(old(store.state), old(repo.refs))
    ensures old(store.faults) <= store.faults && old(repo.failures) <= repo.failures && repo.gaps == old(repo.gaps)
    ensures dryRun ==> made.None?
    ensures made.None? ==> store.state == old(store.state)
    ensures made.Some? ==>
              made.value.headRef == ServedHead(HydratedRefs(old(store.state), old(repo.refs)),
                                               HydratedHead(old(store.state), old(repo.headRef)))
    // Nothing to do, or somebody else has moved the head.
    ensures r == Ok(None) ==>
              || !NeedsCompaction(old(store.state), threshold)
              || (!dryRun && store.shared && store.state.head != old(store.state).head)
    ensures !NeedsCompaction(old(store.state), threshold) ==> r == Ok(None) && made.None?
    // It fails only over a fault, or when it cannot be carried out.
    ensures r.Ok? ==> store.faults == old(store.faults) && repo.failures == old(repo.failures)
    ensures r.Err? && store.faults == old(store.faults) && repo.failures == old(repo.failures) ==>
              || |old(store.state).generations| >= MAX_SCAN_KEYS
              || (!dryRun && (!Hydratable(old(store.state), old(repo.packs)) || HydratedRefs(old(store.state), old(repo.refs)) == map[]
                              || id in old(store.state).generations))
    ensures r.Err? && dryRun ==> |old(store.state).generations| >= MAX_SCAN_KEYS
    ensures made.Some? ==>
              var s := old(store.state);
              && s.head.Some? && Repacked(repo.graph, s, old(repo.refs), now, made.value)
              && Lists(ck, s.commits.Keys) && Lists(rk, s.refs.Keys)
              && Reached(store.shared, s, CompactScript(s, made.value, id, now, ck, rk), store.state)
    ensures var s := old(store.state);
            var reach := Closure(repo.graph, HydratedRefs(s, old(repo.refs)).Values);
            && Kept(repo.graph, s, store.state, true, ReachesAll(s, reach))
            && NothingIsDeleted(s, store.state)
    ensures r.Ok? && r.value.Some? ==>
              var s := old(store.state);
              && s.head.Some? && s.head.value.generation in s.generations
              && |s.generations[s.head.value.generation].packs| > threshold
              && r.value.value.oldPackCount == |s.generations[s.head.value.generation].packs|
              && r.value.value.newGeneration == id
              && Lists(r.value.value.oldGenerations, s.generations.Keys)
    ensures r.Ok? && r.value.Some? && !dryRun ==>
              var s := old(store.state);
              && made.Some? && Repacked(repo.graph, s, old(repo.refs), now, made.value)
              && store.state == Compacted(s, id, made.value, now)
              && store.state == AfterWrites(s, CompactScript(s, made.value, id, now, ck, rk))
              && (Covered(repo.graph, s) ==>
                    (Covered(repo.graph, store.state)
                     <==> ReachesAll(s, Closure(repo.graph, HydratedRefs(s, old(repo.refs)).Values))))
  {
    hide Kept, Covered, Integrity, Repointed, WithComplete, ReachesAll, Closure, SelfContained, TakesOver, Repacked,
         MovesSafely, NothingIsDeleted, HydratedRefs, WithPacks, Usable, AsSet, ListedCommits, AsSetOf, Referenced,
         Reached, AfterWrites, UploadScript, SwitchScript, Lists, ServedHead, HydratedHead, Hydratable;
    ghost var g, refs := repo.graph, repo.refs;
    var s := store.state;
    ghost var safe := ReachesAll(s, Closure(g, HydratedRefs(s, refs).Values));
    KeptStart(g, s, true, safe);
    NothingDeletedYet(s, s);
    made, ck, rk := None, [], [];
    if s.head.None? {
      return Ok(None), made, ck, rk;
    }
    var head := s.head.value;
    if head.generation !in s.generations {
      return Ok(None), made, ck, rk;
    }
    var packCount := |s.generations[head.generation].packs|;
    if packCount <= threshold {
      return Ok(None), made, ck, rk;
    }
    var listed := ListGenerationIds(s);
    if listed.Err? {
      return Err(listed.error), made, ck, rk;
    }
    var ids := listed.value;
    var report := CompactionReport(packCount, ids, id);
    if dryRun {
      return Ok(Some(report)), made, ck, rk;
    }
    var compacted := MakeCompacted(s, repo, ids, now);
    if compacted.Err? {
      return Err(compacted.error), made, ck, rk;
    }
    var m := compacted.value;
    made := Some(m);
    RepackIsSafe(g, s, refs, now, m, id, ids);
    ck := ListingExists(s.commits.Keys);
    rk := ListingExists(s.refs.Keys);
    var uploaded := UploadGeneration(store, id, m, now, g);
    ghost var t := store.state;
    ghost var ws := UploadScript(s, m.packs, now) + [PutGeneration(id, m)];
    ReachedWithin(false, store.shared, s, ws, SwitchScript(s, m, id, now, ck, rk, s.generations.Keys), t);
    KeptThen(g, s, s, t, true, safe, true, SelfContained(g, m));
    if uploaded.Err? {
      return Err(uploaded.error), made, ck, rk;
    }
    IntegrityKept(g, s, t, safe);
    assert t == Applied(WithPacks(s, m.PackKeys(), now), PutGeneration(id, m));
    WithPacksFrame(s, m.PackKeys(), now);
    MovesIfReached(s, t, refs, now, m, id, ids, g);
    var switched;
    switched, ck, rk := SwitchOver(store, s, ids, id, m, now, g);
    ReachedBeyond(store.shared, s, ws, SwitchScript(s, m, id, now, ck, rk, s.generations.Keys), store.state);
    AfterBoth(s, ws, SwitchScript(s, m, id, now, ck, rk, s.generations.Keys));
    KeptThen(g, s, t, store.state, true, safe, true, MovesSafely(t, s, ids, id, m));
    NothingDeletedFurther(s, t, store.state);
    if switched.Err? {
      return Err(switched.error), made, ck, rk;
    }
    if !switched.value {
      return Ok(None), made, ck, rk;
    }
    assert store.state == Compacted(s, id, m, now);
    if Covered(g, s) {
      CompactionCoverage(g, s, refs, id, m, now);
    }
    return Ok(Some(report)), made, ck, rk;
  }

  lemma NothingDeletedYet(s: State, t: State)
    requires t.packs == s.packs && t.generations == s.generations
    ensures NothingIsDeleted(s, t)
  {
  }

  lemma NothingDeletedFurther(s: State, t: State, u: State)
    requires NothingIsDeleted(s, t) && u.packs == t.packs && u.generations == t.generations
    ensures NothingIsDeleted(s, u)
  {
  }

  lemma WithPacksFrame(s: State, keys: set<PackKey>, now: Time)
    ensures var t := WithPacks(s, keys, now);
            t == s.(packs := t.packs)
  {
  }

  lemma RepackIsSafe(
    g: Graph, s: State, refs: map<RefName, ObjectId>, now: Time, m: GenerationManifest, id: GenerationId, ids: seq<GenerationId>)
    requires Repacked(g, s, refs, now, m) && s.head.Some?
    requires forall x :: x in ids <==> x in s.generations
    ensures ReachesAll(s, Closure(g, HydratedRefs(s, refs).Values)) ==> SelfContained(g, m)
    ensures AsSetOf(ids) == s.generations.Keys
  {
    assert forall c :: c in m.commits <==> c in AsSet(m.commits);
  }

  lemma MovesIfReached(
    s: State, t: State, refs: map<RefName, ObjectId>, now: Time, m: GenerationManifest, id: GenerationId, ids: seq<GenerationId>, g: Graph)
    requires s.head.Some? && Repacked(g, s, refs, now, m)
    requires t == Applied(s.(packs := t.packs), PutGeneration(id, m))
    ensures ReachesAll(s, Closure(g, HydratedRefs(s, refs).Values)) ==> MovesSafely(t, s, ids, id, m)
  {
    hide Closure, HydratedRefs;
    assert ObjectsOf(t, id) == m.Objects();
  }
}
