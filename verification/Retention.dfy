/**
  Repointing and the retention sweep: what takes generations out of service.
*/
module Retention {
  import opened Wrappers
  import opened ObjectGraph
  import opened StoreState
  import opened LocalRepo
  import opened GenerationStore

  // ------------------------------------------------------------------ repoint

  function MovedCommit(m: CommitManifest, olds: set<GenerationId>, id: GenerationId): CommitManifest {
    if m.generation in olds then m.(generation := id) else m
  }

  function MovedRef(m: RefManifest, olds: set<GenerationId>, id: GenerationId): RefManifest {
    if m.generation in olds then m.(generation := id) else m
  }

  function WithCommitsMoved(s: State, done: set<ObjectId>, olds: set<GenerationId>, id: GenerationId): State {
    s.(commits := map c | c in s.commits :: if c in done then MovedCommit(s.commits[c], olds, id) else s.commits[c])
  }

  function WithRefsMoved(s: State, done: set<RefName>, olds: set<GenerationId>, id: GenerationId): State {
    s.(refs := map r | r in s.refs :: if r in done then MovedRef(s.refs[r], olds, id) else s.refs[r])
  }

  function WithDefaultMoved(s: State, olds: set<GenerationId>, id: GenerationId): State {
    if s.defaultRef.Some? && s.defaultRef.value.generation in olds
    then WithDefault(s, MovedRef(s.defaultRef.value, olds, id)) else s
  }

  /** Every commit, ref and default manifest that named an old generation names the new one. */
  function Repointed(s: State, olds: set<GenerationId>, id: GenerationId): State {
    var t := WithCommitsMoved(s, s.commits.Keys, olds, id);
    var u := WithRefsMoved(t, t.refs.Keys, olds, id);
    WithDefaultMoved(u, olds, id)
  }

  /** The new generation holds every complete commit that is mapped to an old one. */
  predicate TakesOver(s: State, olds: set<GenerationId>, id: GenerationId) {
    forall c | c in s.commits && s.commits[c].complete && s.commits[c].generation in olds :: c in ObjectsOf(s, id)
  }

  /** Nothing but the head, and the new generation itself, is still named from among the old ones. */
  lemma RepointedNames(s: State, olds: set<GenerationId>, id: GenerationId)
    ensures forall x | x in Referenced(Repointed(s, olds, id)) ::
              x !in olds || x == id || (s.head.Some? && x == s.head.value.generation)
  {
    var t := Repointed(s, olds, id);
    RepointedFields(s, olds, id);
    RepointedElsewhere(s, olds, id);
    hide Repointed;
    forall x | x in Referenced(t) && x in olds && x != id
      ensures s.head.Some? && x == s.head.value.generation
    {
    }
  }

  lemma RepointedElsewhere(s: State, olds: set<GenerationId>, id: GenerationId)
    ensures var t := Repointed(s, olds, id);
            && (forall r | r in t.refs :: t.refs[r].generation !in olds || t.refs[r].generation == id)
            && (t.defaultRef.Some? ==> t.defaultRef.value.generation !in olds || t.defaultRef.value.generation == id)
  {
  }

  /** Repointing keeps coverage exactly when the new generation takes over. */
  lemma RepointCoverage(g: Graph, s: State, olds: set<GenerationId>, id: GenerationId)
    requires Covered(g, s)
    ensures Covered(g, Repointed(s, olds, id)) <==> TakesOver(s, olds, id)
  {
    var t := Repointed(s, olds, id);
    RepointedFields(s, olds, id);
    hide Repointed, SelfContained;
    assert forall x :: ObjectsOf(t, x) == ObjectsOf(s, x);
    hide ObjectsOf;
    forall c | c in s.commits
      ensures t.commits[c] == MovedCommit(s.commits[c], olds, id)
    {
    }
  }

  /** Repointing changes manifests only, and every commit manifest by itself. */
  lemma RepointedFields(s: State, olds: set<GenerationId>, id: GenerationId)
    ensures var t := Repointed(s, olds, id);
            && t.packs == s.packs && t.generations == s.generations && t.head == s.head
            && t.commits.Keys == s.commits.Keys
            && forall c | c in s.commits :: t.commits[c] == MovedCommit(s.commits[c], olds, id)
  {
  }

  lemma MoveOneCommit(s: State, done: set<ObjectId>, c: ObjectId, olds: set<GenerationId>, id: GenerationId)
    requires c in s.commits && c !in done
    ensures var t := WithCommitsMoved(s, done, olds, id);
            && c in t.commits && t.commits[c] == s.commits[c]
            && WithCommitsMoved(s, done + {c}, olds, id)
               == if s.commits[c].generation in olds then Applied(t, PutCommit(c, MovedCommit(s.commits[c], olds, id))) else t
  {
  }

  lemma MoveOneRef(s: State, done: set<RefName>, r: RefName, olds: set<GenerationId>, id: GenerationId)
    requires r in s.refs && r !in done && s.refs[r].refName == r
    ensures var t := WithRefsMoved(s, done, olds, id);
            && r in t.refs && t.refs[r] == s.refs[r]
            && WithRefsMoved(s, done + {r}, olds, id)
               == if s.refs[r].generation in olds then Applied(t, PutRef(MovedRef(s.refs[r], olds, id))) else t
  {
  }

  lemma NothingMoved(s: State, olds: set<GenerationId>, id: GenerationId)
    ensures WithCommitsMoved(s, {}, olds, id) == s
    ensures WithRefsMoved(s, {}, olds, id) == s
  {
  }

  // ------------------------------------------------------------ the writes of repointing

  /** A listing of a set, each member once. */
  ghost predicate Lists<T(!new)>(q: seq<T>, s: set<T>) {
    && (forall x :: x in q <==> x in s)
    && (forall i, j | 0 <= i < j < |q| :: q[i] != q[j])
  }

  lemma {:induction false} ListingExists<T(!new)>(s: set<T>) returns (q: seq<T>)
    ensures Lists(q, s)
  {
    if s == {} {
      q := [];
    } else {
      var x :| x in s;
      var rest := ListingExists(s - {x});
      q := rest + [x];
    }
  }

  function MoveCommits(s: State, keys: seq<ObjectId>, olds: set<GenerationId>, id: GenerationId): seq<Write> {
    if keys == [] then []
    else
      var n, c := |keys| - 1, keys[|keys| - 1];
      MoveCommits(s, keys[..n], olds, id)
      + if c in s.commits && s.commits[c].generation in olds then [PutCommit(c, MovedCommit(s.commits[c], olds, id))] else []
  }

  function MoveRefs(s: State, keys: seq<RefName>, olds: set<GenerationId>, id: GenerationId): seq<Write> {
    if keys == [] then []
    else
      var n, r := |keys| - 1, keys[|keys| - 1];
      MoveRefs(s, keys[..n], olds, id)
      + if r in s.refs && s.refs[r].generation in olds then [PutRef(MovedRef(s.refs[r], olds, id))] else []
  }

  function MoveDefault(s: State, olds: set<GenerationId>, id: GenerationId): seq<Write> {
    DefaultScript(if s.defaultRef.Some? && s.defaultRef.value.generation in olds
                  then Some(MovedRef(s.defaultRef.value, olds, id)) else None)
  }

  /** Commit manifests in some order, ref manifests in some order, then the default manifest. */
  function RepointScript(s: State, ck: seq<ObjectId>, rk: seq<RefName>, olds: set<GenerationId>, id: GenerationId): seq<Write> {
    MoveCommits(s, ck, olds, id) + MoveRefs(s, rk, olds, id) + MoveDefault(s, olds, id)
  }

  lemma NextCommitMove(s: State, keys: seq<ObjectId>, i: nat, olds: set<GenerationId>, id: GenerationId)
    requires i < |keys|
    ensures var c := keys[i];
            var so := MoveCommits(s, keys[..i], olds, id);
            MoveCommits(s, keys[..i + 1], olds, id)
            == if c in s.commits && s.commits[c].generation in olds then so + [PutCommit(c, MovedCommit(s.commits[c], olds, id))] else so
  {
    assert keys[..i + 1][..i] == keys[..i] && keys[..i + 1][i] == keys[i];
  }

  lemma {:induction false} CommitMovesGrow(s: State, keys: seq<ObjectId>, i: nat, olds: set<GenerationId>, id: GenerationId)
    requires i <= |keys|
    ensures MoveCommits(s, keys[..i], olds, id) <= MoveCommits(s, keys, olds, id)
    ensures i < |keys| ==>
              var c := keys[i];
              var so := MoveCommits(s, keys[..i], olds, id);
              MoveCommits(s, keys[..i + 1], olds, id)
              == if c in s.commits && s.commits[c].generation in olds then so + [PutCommit(c, MovedCommit(s.commits[c], olds, id))] else so
    decreases |keys| - i
  {
    hide MoveCommits;
    if i < |keys| {
      NextCommitMove(s, keys, i, olds, id);
      CommitMovesGrow(s, keys, i + 1, olds, id);
    } else {
      assert keys[..i] == keys;
    }
  }

  lemma NextRefMove(s: State, keys: seq<RefName>, i: nat, olds: set<GenerationId>, id: GenerationId)
    requires i < |keys|
    ensures var r := keys[i];
            var so := MoveRefs(s, keys[..i], olds, id);
            MoveRefs(s, keys[..i + 1], olds, id)
            == if r in s.refs && s.refs[r].generation in olds then so + [PutRef(MovedRef(s.refs[r], olds, id))] else so
  {
    assert keys[..i + 1][..i] == keys[..i] && keys[..i + 1][i] == keys[i];
  }

  lemma {:induction false} RefMovesGrow(s: State, keys: seq<RefName>, i: nat, olds: set<GenerationId>, id: GenerationId)
    requires i <= |keys|
    ensures MoveRefs(s, keys[..i], olds, id) <= MoveRefs(s, keys, olds, id)
    ensures i < |keys| ==>
              var r := keys[i];
              var so := MoveRefs(s, keys[..i], olds, id);
              MoveRefs(s, keys[..i + 1], olds, id)
              == if r in s.refs && s.refs[r].generation in olds then so + [PutRef(MovedRef(s.refs[r], olds, id))] else so
    decreases |keys| - i
  {
    hide MoveRefs;
    if i < |keys| {
      NextRefMove(s, keys, i, olds, id);
      RefMovesGrow(s, keys, i + 1, olds, id);
    } else {
      assert keys[..i] == keys;
    }
  }

  /** Ref moves depend on refs only, and the default move on the default manifest. */
  lemma {:induction false} MovesDepend(s: State, t: State, rk: seq<RefName>, olds: set<GenerationId>, id: GenerationId)
    requires s.refs == t.refs
    ensures MoveRefs(s, rk, olds, id) == MoveRefs(t, rk, olds, id)
    ensures s.defaultRef == t.defaultRef ==> MoveDefault(s, olds, id) == MoveDefault(t, olds, id)
  {
    if rk != [] {
      MovesDepend(s, t, rk[..|rk| - 1], olds, id);
    }
  }

  lemma {:induction false} CommitMovesDepend(s: State, t: State, ck: seq<ObjectId>, olds: set<GenerationId>, id: GenerationId)
    requires s.commits == t.commits
    ensures MoveCommits(s, ck, olds, id) == MoveCommits(t, ck, olds, id)
  {
    if ck != [] {
      CommitMovesDepend(s, t, ck[..|ck| - 1], olds, id);
    }
  }

  method RepointCommits(store: ObjectStore, olds: set<GenerationId>, id: GenerationId, ghost g: Graph)
    returns (ok: bool, ghost ck: seq<ObjectId>)
    modifies store
    ensures store.faults == old(store.faults) + if ok then 0 else 1
    ensures Lists(ck, old(store.state).commits.Keys)
    ensures Reached(false, old(store.state), MoveCommits(old(store.state), ck, olds, id), store.state)
    ensures ok ==> store.state == AfterWrites(old(store.state), MoveCommits(old(store.state), ck, olds, id))
    ensures ok ==> store.state == WithCommitsMoved(old(store.state), old(store.state).commits.Keys, olds, id)
    ensures store.state == old(store.state).(commits := store.state.commits)
    ensures Kept(g, old(store.state), store.state, Usable(old(store.state), id), TakesOver(old(store.state), olds, id))
  {
    hide Kept, WithCommitsMoved, Usable, Integrity, Covered, ObjectsOf, Reached, AfterWrites, MoveCommits;
    ghost var s := store.state;
    KeptStart(g, s, Usable(s, id), TakesOver(s, olds, id));
    NothingMoved(s, olds, id);
    var keys := Listed(store.state.commits.Keys);
    ck := keys;
    CommitsNotMoved(s, olds, id);
    assert keys[..0] == [];
    ghost var done: set<ObjectId> := {};
    for i := 0 to |keys|
      invariant store.faults == old(store.faults)
      invariant forall c :: c in done <==> c in keys[..i]
      invariant store.state == WithCommitsMoved(s, done, olds, id)
      invariant store.state == AfterWrites(s, MoveCommits(s, keys[..i], olds, id))
      invariant store.state == s.(commits := store.state.commits)
      invariant Kept(g, s, store.state, Usable(s, id), TakesOver(s, olds, id))
    {
      var c := keys[i];
      MoveOneCommit(s, done, c, olds, id);
      CommitMovesGrow(s, keys, i, olds, id);
      ReachedAfter(s, MoveCommits(s, keys[..i], olds, id), MoveCommits(s, keys, olds, id), store.state);
      AfterOneMore(s, MoveCommits(s, keys[..i], olds, id), PutCommit(c, MovedCommit(s.commits[c], olds, id)));
      var m := store.state.commits[c];
      if m.generation in olds {
        ghost var before := store.state;
        StepDepends(s, before, olds, id, c);
        ok := store.Perform(PutCommit(c, MovedCommit(m, olds, id)), g);
        KeptThen(g, s, before, store.state, Usable(s, id), TakesOver(s, olds, id),
                 Usable(before, id), Covering(g, before, PutCommit(c, MovedCommit(m, olds, id))));
        if !ok {
          return;
        }
      }
      done := done + {c};
    }
    assert done == s.commits.Keys && keys[..|keys|] == keys;
    ReachedAfter(s, MoveCommits(s, keys, olds, id), MoveCommits(s, keys, olds, id), store.state);
    return true, ck;
  }

  lemma CommitsNotMoved(s: State, olds: set<GenerationId>, id: GenerationId)
    ensures AfterWrites(s, MoveCommits(s, [], olds, id)) == s
    ensures AfterWrites(s, MoveRefs(s, [], olds, id)) == s
  {
  }

  /** What one repointed commit manifest relies on is what it relied on at the start. */
  lemma StepDepends(s: State, t: State, olds: set<GenerationId>, id: GenerationId, c: ObjectId)
    requires t == s.(commits := t.commits)
    ensures Usable(s, id) == Usable(t, id)
    ensures TakesOver(s, olds, id) && c in s.commits && s.commits[c].complete && s.commits[c].generation in olds ==>
              c in ObjectsOf(t, id)
  {
  }

  method RepointRefs(store: ObjectStore, olds: set<GenerationId>, id: GenerationId, ghost g: Graph)
    returns (ok: bool, ghost rk: seq<RefName>)
    requires forall r | r in store.state.refs :: store.state.refs[r].refName == r
    modifies store
    ensures store.faults == old(store.faults) + if ok then 0 else 1
    ensures Lists(rk, old(store.state).refs.Keys)
    ensures Reached(false, old(store.state), MoveRefs(old(store.state), rk, olds, id), store.state)
    ensures ok ==> store.state == AfterWrites(old(store.state), MoveRefs(old(store.state), rk, olds, id))
    ensures ok ==> store.state == WithRefsMoved(old(store.state), old(store.state).refs.Keys, olds, id)
    ensures store.state == old(store.state).(refs := store.state.refs)
    ensures Kept(g, old(store.state), store.state, Usable(old(store.state), id), true)
  {
    hide Kept, WithRefsMoved, Integrity, Covered, ObjectsOf, Reached, AfterWrites, MoveRefs;
    ghost var s := store.state;
    KeptStart(g, s, Usable(s, id), true);
    NothingMoved(s, olds, id);
    var keys := Listed(store.state.refs.Keys);
    rk := keys;
    CommitsNotMoved(s, olds, id);
    assert keys[..0] == [];
    ghost var done: set<RefName> := {};
    for i := 0 to |keys|
      invariant store.faults == old(store.faults)
      invariant forall r :: r in done <==> r in keys[..i]
      invariant store.state == WithRefsMoved(s, done, olds, id)
      invariant store.state == AfterWrites(s, MoveRefs(s, keys[..i], olds, id))
      invariant store.state == s.(refs := store.state.refs)
      invariant Kept(g, s, store.state, Usable(s, id), true)
    {
      var r := keys[i];
      MoveOneRef(s, done, r, olds, id);
      RefMovesGrow(s, keys, i, olds, id);
      ReachedAfter(s, MoveRefs(s, keys[..i], olds, id), MoveRefs(s, keys, olds, id), store.state);
      AfterOneMore(s, MoveRefs(s, keys[..i], olds, id), PutRef(MovedRef(s.refs[r], olds, id)));
      var m := store.state.refs[r];
      if m.generation in olds {
        ghost var before := store.state;
        ok := store.Perform(PutRef(MovedRef(m, olds, id)), g);
        KeptThen(g, s, before, store.state, Usable(s, id), true, Usable(before, id), true);
        if !ok {
          return;
        }
      }
      done := done + {r};
    }
    assert done == s.refs.Keys && keys[..|keys|] == keys;
    ReachedAfter(s, MoveRefs(s, keys, olds, id), MoveRefs(s, keys, olds, id), store.state);
    return true, rk;
  }

  /**
    Repoints one manifest at a time.  At every crash point each manifest names
    either the generation it named before or the new one, so integrity only
    needs the new one to be usable, and coverage that it takes over.
  */
  method Repoint(store: ObjectStore, olds: set<GenerationId>, id: GenerationId, ghost g: Graph)
    returns (ok: bool, ghost ck: seq<ObjectId>, ghost rk: seq<RefName>)
    requires Integrity(store.state)
    modifies store
    ensures store.faults == old(store.faults) + if ok then 0 else 1
    ensures ok ==> store.state == Repointed(old(store.state), olds, id)
    ensures store.state.packs == old(store.state).packs && store.state.generations == old(store.state).generations
    ensures store.state.head == old(store.state).head
    ensures Lists(ck, old(store.state).commits.Keys) && Lists(rk, old(store.state).refs.Keys)
    ensures Reached(false, old(store.state), RepointScript(old(store.state), ck, rk, olds, id), store.state)
    ensures ok ==> store.state == AfterWrites(old(store.state), RepointScript(old(store.state), ck, rk, olds, id))
    ensures Kept(g, old(store.state), store.state, Usable(old(store.state), id), TakesOver(old(store.state), olds, id))
  {
    hide Kept, Covered, ObjectsOf, WithCommitsMoved, WithRefsMoved, TakesOver, Reached, AfterWrites, RepointScript, MoveDefault, Lists;
    ghost var s := store.state;
    ok, ck := RepointCommits(store, olds, id, g);
    ghost var t := store.state;
    rk := ListingExists(s.refs.Keys);
    RepointReached(s, ck, rk, olds, id, t, if ok then 1 else 0);
    if !ok {
      return;
    }
    ok, rk := RepointRefs(store, olds, id, g);
    var u := store.state;
    RepointReached(s, ck, rk, olds, id, u, if ok then 2 else 1);
    KeptThen(g, s, t, u, Usable(s, id), TakesOver(s, olds, id), Usable(t, id), true);
    if !ok {
      return;
    }
    if u.defaultRef.Some? && u.defaultRef.value.generation in olds {
      ok := WriteDefaultRef(store, MovedRef(u.defaultRef.value, olds, id), g);
      KeptThen(g, s, u, store.state, Usable(s, id), TakesOver(s, olds, id), Usable(u, id), Usable(u, id));
    }
    DefaultMoves(s, u, ck, rk, olds, id, ok, store.state);
  }

  /** Where repointing stands after its commit manifests, after its ref manifests, or within either. */
  lemma RepointReached(
    s: State, ck: seq<ObjectId>, rk: seq<RefName>, olds: set<GenerationId>, id: GenerationId, t: State, parts: nat)
    requires var u := AfterWrites(s, MoveCommits(s, ck, olds, id));
             match parts
             case 0 => Reached(false, s, MoveCommits(s, ck, olds, id), t)
             case 1 => t == u || (u.refs == s.refs && Reached(false, u, MoveRefs(u, rk, olds, id), t))
             case _ => u.refs == s.refs && t == AfterWrites(u, MoveRefs(u, rk, olds, id))
    ensures Reached(false, s, RepointScript(s, ck, rk, olds, id), t)
    ensures parts >= 2 ==> t == AfterWrites(s, MoveCommits(s, ck, olds, id) + MoveRefs(s, rk, olds, id))
  {
    hide AfterWrites, Reached, MoveCommits, MoveRefs, MoveDefault;
    var a, b, c := MoveCommits(s, ck, olds, id), MoveRefs(s, rk, olds, id), MoveDefault(s, olds, id);
    var u := AfterWrites(s, a);
    AfterBoth(s, a, b);
    if parts == 0 {
      ReachedWithin(false, false, s, a, b, t);
    } else if t == u {
      ReachedEnds(false, s, a);
      ReachedWithin(false, false, s, a, b, t);
    } else {
      MovesDepend(s, u, rk, olds, id);
      ReachedEnds(false, u, b);
      ReachedBeyond(false, s, a, b, t);
    }
    if parts >= 2 {
      MovesDepend(s, u, rk, olds, id);
    }
    ReachedWithin(false, false, s, a + b, c, t);
  }

  lemma DefaultMoves(
    s: State, u: State, ck: seq<ObjectId>, rk: seq<RefName>, olds: set<GenerationId>, id: GenerationId, ok: bool, t: State)
    requires u == AfterWrites(s, MoveCommits(s, ck, olds, id) + MoveRefs(s, rk, olds, id)) && u.defaultRef == s.defaultRef
    requires if u.defaultRef.Some? && u.defaultRef.value.generation in olds
             then Reached(false, u, DefaultScript(Some(MovedRef(u.defaultRef.value, olds, id))), t)
                  && (ok ==> t == WithDefault(u, MovedRef(u.defaultRef.value, olds, id)))
             else t == u
    ensures Reached(false, s, RepointScript(s, ck, rk, olds, id), t)
    ensures ok ==> t == AfterWrites(s, RepointScript(s, ck, rk, olds, id))
  {
    hide AfterWrites, Reached, MoveCommits, MoveRefs, DefaultScript, WithDefault;
    var ab, c := MoveCommits(s, ck, olds, id) + MoveRefs(s, rk, olds, id), MoveDefault(s, olds, id);
    AfterBoth(s, ab, c);
    DefaultWrites(u, RefManifest("HEAD", ObjectId(0), id, 0));
    if u.defaultRef.Some? && u.defaultRef.value.generation in olds {
      DefaultWrites(u, MovedRef(u.defaultRef.value, olds, id));
    } else {
      ReachedEnds(false, u, c);
    }
    ReachedBeyond(false, s, ab, c, t);
  }

  // -------------------------------------------------------------------- sweep

  /**
    The generations whose time is up: not the head's, and another generation was
    created strictly between this one and the cutoff.
  */
  function Superseded(s: State, cutoff: Time): set<GenerationId>
    requires s.head.Some?
  {
    set x | x in s.generations && x != s.head.value.generation
            && exists y :: y in s.generations && s.generations[x].createdAt < s.generations[y].createdAt < cutoff
  }

  /** Packs that some generation outside a set lists. */
  function KeptPacks(s: State, ids: set<GenerationId>): set<PackKey> {
    set x, k | x in s.generations && x !in ids && k in s.generations[x].PackKeys() :: k
  }

  /** Packs that only generations of a set list. */
  function ExclusivePacks(s: State, ids: set<GenerationId>): set<PackKey> {
    set x, k | x in s.generations && x in ids && k in s.generations[x].PackKeys() && k !in KeptPacks(s, ids) :: k
  }

  function WithoutGenerations(s: State, ids: set<GenerationId>, packs: set<PackKey>): State {
    s.(generations := s.generations - ids, packs := s.packs - packs)
  }

  /** A second sweep at the same cutoff finds nothing more to do. */
  lemma SecondSweepFindsNothing(s: State, cutoff: Time, t: State)
    requires s.head.Some? && t.head == s.head
    requires t.generations == s.generations - Superseded(s, cutoff)
    ensures Superseded(t, cutoff) == {}
  {
    forall x | x in t.generations && x != s.head.value.generation
      ensures x !in Superseded(t, cutoff)
    {
      assert x !in Superseded(s, cutoff);
    }
  }

  type Stamped = (Time, GenerationId)

  predicate InOrder(q: seq<Stamped>) {
    forall i, j | 0 <= i < j < |q| :: q[i].0 <= q[j].0
  }

  /** Inserts before the later entries. */
  function Inserted(q: seq<Stamped>, e: Stamped): (r: seq<Stamped>)
    ensures forall x :: x in r <==> x in q || x == e
    ensures InOrder(q) ==> InOrder(r)
  {
    if |q| == 0 then [e]
    else if q[0].0 > e.0 then [e] + q
    else
      var rest := Inserted(q[1..], e);
      assert InOrder(q) ==> forall x | x in rest :: q[0].0 <= x.0;
      [q[0]] + rest
  }

  lemma {:induction false} InsertedCounts(q: seq<Stamped>, e: Stamped)
    ensures multiset(Inserted(q, e)) == multiset(q) + multiset{e}
  {
    if |q| > 0 && q[0].0 <= e.0 {
      InsertedCounts(q[1..], e);
      assert q == [q[0]] + q[1..];
    }
  }

  /** Sorts by creation time. */
  method SortByCreation(entries: seq<Stamped>) returns (sorted: seq<Stamped>)
    ensures InOrder(sorted)
    ensures forall e :: e in sorted <==> e in entries
    ensures multiset(sorted) == multiset(entries)
  {
    sorted := [];
    for i := 0 to |entries|
      invariant InOrder(sorted)
      invariant forall e :: e in sorted <==> e in entries[..i]
      invariant multiset(sorted) == multiset(entries[..i])
    {
      InsertedCounts(sorted, entries[i]);
      sorted := Inserted(sorted, entries[i]);
      assert entries[..i + 1] == entries[..i] + [entries[i]];
    }
    assert entries[..|entries|] == entries;
  }

  /** The creation time of the first generation created strictly after a given one. */
  method SuccessorCreatedAt(sorted: seq<Stamped>, id: GenerationId, createdAt: Time) returns (r: Option<Time>)
    requires InOrder(sorted)
    ensures r.Some? ==> exists e :: e in sorted && e.1 != id && e.0 == r.value && e.0 > createdAt
    ensures forall e | e in sorted && e.1 != id && e.0 > createdAt :: r.Some? && r.value <= e.0
  {
    for i := 0 to |sorted|
      invariant forall j :: 0 <= j < i ==> sorted[j].1 == id || sorted[j].0 <= createdAt
    {
      if sorted[i].1 != id && sorted[i].0 > createdAt {
        return Some(sorted[i].0);
      }
    }
    return None;
  }

  /** The list pairs exactly the stored generations with their creation times. */
  ghost predicate ListsAll(s: State, entries: seq<Stamped>) {
    && (forall x | x in s.generations :: (s.generations[x].createdAt, x) in entries)
    && (forall e | e in entries :: e.1 in s.generations && e.0 == s.generations[e.1].createdAt)
  }

  lemma EntriesComplete(s: State, ids: seq<GenerationId>, entries: seq<Stamped>)
    requires forall x :: x in ids <==> x in s.generations
    requires |entries| == |ids| && forall i | 0 <= i < |ids| :: entries[i] == (s.generations[ids[i]].createdAt, ids[i])
    ensures ListsAll(s, entries)
  {
    forall x | x in s.generations
      ensures (s.generations[x].createdAt, x) in entries
    {
      var i :| 0 <= i < |ids| && ids[i] == x;
      assert entries[i] == (s.generations[x].createdAt, x);
    }
  }

  lemma SuccessorDecides(s: State, cutoff: Time, sorted: seq<Stamped>, x: GenerationId, r: Option<Time>)
    requires s.head.Some? && x in s.generations && x != s.head.value.generation && ListsAll(s, sorted)
    requires r.Some? ==> exists e :: e in sorted && e.1 != x && e.0 == r.value && e.0 > s.generations[x].createdAt
    requires forall e | e in sorted && e.1 != x && e.0 > s.generations[x].createdAt :: r.Some? && r.value <= e.0
    ensures x in Superseded(s, cutoff) <==> r.Some? && r.value < cutoff
  {
    if x in Superseded(s, cutoff) {
      var y :| y in s.generations && s.generations[x].createdAt < s.generations[y].createdAt < cutoff;
      assert (s.generations[y].createdAt, y) in sorted;
    }
  }

  /** Finds each generation's successor and compares it with the cutoff. */
  method FindSuperseded(s: State, ids: seq<GenerationId>, cutoff: Time) returns (swept: set<GenerationId>)
    requires s.head.Some?
    requires forall x :: x in ids <==> x in s.generations
    ensures swept == Superseded(s, cutoff)
  {
    var entries := seq(|ids|, i requires 0 <= i < |ids| => (s.generations[ids[i]].createdAt, ids[i]));
    EntriesComplete(s, ids, entries);
    var sorted := SortByCreation(entries);
    swept := {};
    for i := 0 to |ids|
      invariant forall x :: x in swept <==> x in ids[..i] && x in Superseded(s, cutoff)
    {
      var x := ids[i];
      if x == s.head.value.generation {
        continue;
      }
      var successor := SuccessorCreatedAt(sorted, x, s.generations[x].createdAt);
      SuccessorDecides(s, cutoff, sorted, x, successor);
      if successor.Some? && successor.value < cutoff {
        swept := swept + {x};
      }
    }
    assert ids[..|ids|] == ids;
  }

  /** The store after a sweep: repointed to the head, superseded generations and dead packs gone. */
  function Swept(s: State, cutoff: Time, orphans: set<PackKey>): State
    requires s.head.Some?
  {
    var ids := Superseded(s, cutoff);
    var t := if ids == {} then s else Repointed(s, ids, s.head.value.generation);
    WithoutGenerations(t, ids, ExclusivePacks(s, ids) + orphans)
  }

  /** The head generation holds every complete commit whose generation is about to go. */
  predicate HeadTakesOver(s: State, cutoff: Time)
    requires s.head.Some?
  {
    TakesOver(s, Superseded(s, cutoff), s.head.value.generation)
  }

  /** Removing generations that nothing names changes nothing about coverage. */
  lemma RemovalCoverage(g: Graph, t: State, ids: set<GenerationId>, packs: set<PackKey>)
    requires forall x | x in t.generations :: SelfContained(g, t.generations[x])
    requires ids !! Referenced(t)
    ensures Covered(g, WithoutGenerations(t, ids, packs)) <==> Covered(g, t)
  {
    hide SelfContained;
    var u := WithoutGenerations(t, ids, packs);
    forall x | x in Referenced(t)
      ensures ObjectsOf(u, x) == ObjectsOf(t, x)
    {
    }
    forall c | c in t.commits
      ensures t.commits[c].generation in Referenced(t)
    {
    }
  }

  /** A sweep keeps coverage exactly when the head takes over, whichever orphans it found. */
  lemma SweepCoverage(g: Graph, s: State, cutoff: Time, orphans: set<PackKey>)
    requires s.head.Some? && Integrity(s) && Covered(g, s)
    ensures Covered(g, Swept(s, cutoff, orphans)) <==> HeadTakesOver(s, cutoff)
  {
    hide CommitsCovered, HeadCovered, SelfContained, Integrity, Superseded, ExclusivePacks, Repointed, WithoutGenerations,
         TakesOver, Referenced;
    var ids := Superseded(s, cutoff);
    var h := s.head.value.generation;
    HeadStays(s, cutoff);
    if ids == {} {
      NothingToTakeOver(s, h);
      RemovalCoverage(g, s, ids, ExclusivePacks(s, ids) + orphans);
    } else {
      RepointCoverage(g, s, ids, h);
      RepointedNames(s, ids, h);
      RepointedFrame(s, ids, h);
      RemovalCoverage(g, Repointed(s, ids, h), ids, ExclusivePacks(s, ids) + orphans);
    }
  }

  lemma HeadStays(s: State, cutoff: Time)
    requires s.head.Some?
    ensures s.head.value.generation !in Superseded(s, cutoff)
    ensures Superseded(s, cutoff) <= s.generations.Keys
  {
  }

  lemma NothingToTakeOver(s: State, id: GenerationId)
    ensures TakesOver(s, {}, id)
  {
  }

  lemma RepointedFrame(s: State, olds: set<GenerationId>, id: GenerationId)
    ensures var t := Repointed(s, olds, id);
            t.packs == s.packs && t.generations == s.generations && t.head == s.head
  {
  }

  method ListGenerationIds(s: State) returns (r: Result<seq<GenerationId>, Error>)
    ensures r.Ok? <==> |s.generations| < MAX_SCAN_KEYS
    ensures r.Err? ==> r == Err(Conflict)
    ensures r.Ok? ==> Lists(r.value, s.generations.Keys)
    ensures r.Ok? ==> forall x :: x in r.value <==> x in s.generations
    ensures r.Ok? ==> forall i, j :: 0 <= i < j < |r.value| ==> r.value[i] != r.value[j]
  {
    if |s.generations| >= MAX_SCAN_KEYS {
      return Err(Conflict);
    }
    var ids := Listed(s.generations.Keys);
    return Ok(ids);
  }

  /** Pack keys without repetition: all of them, or as many as the scan limit allows. */
  ghost predicate Scanned(packs: map<PackKey, Time>, keys: seq<PackKey>) {
    && (forall i, j | 0 <= i < j < |keys| :: keys[i] != keys[j])
    && (|packs| >= MAX_SCAN_KEYS ==> |keys| == MAX_SCAN_KEYS)
  }

  /** Lists pack keys, cut off at the scan limit. */
  method ListPacks(s: State) returns (keys: seq<PackKey>)
    ensures forall k | k in keys :: k in s.packs
    ensures Scanned(s.packs, keys)
    ensures |s.packs| < MAX_SCAN_KEYS ==> forall k | k in s.packs :: k in keys
  {
    keys := Listed(s.packs.Keys);
    CoverBound(keys, s.packs.Keys);
    if |keys| >= MAX_SCAN_KEYS {
      if |s.packs| < MAX_SCAN_KEYS {
        DistinctBound(keys, s.packs.Keys);
      }
      keys := keys[..MAX_SCAN_KEYS];
    }
  }

  lemma {:induction false} CoverBound<T>(q: seq<T>, s: set<T>)
    requires forall x | x in s :: x in q
    ensures |s| <= |q|
  {
    if q == [] {
      assert s == {};
    } else {
      CoverBound(q[1..], s - {q[0]});
    }
  }

  lemma {:induction false} DistinctBound<T>(q: seq<T>, s: set<T>)
    requires forall x | x in q :: x in s
    requires forall i, j :: 0 <= i < j < |q| ==> q[i] != q[j]
    ensures |q| <= |s|
  {
    if |q| > 0 {
      DistinctBound(q[1..], s - {q[0]});
    }
  }

  /** Every generation that something names has its packs among the given ones. */
  predicate NamedPacksIn(s: State, kept: set<PackKey>) {
    forall x | x in Referenced(s) && x in s.generations :: s.generations[x].PackKeys() <= kept
  }

  lemma DeleteOneMore(t: State, now: State, kept: set<PackKey>, gone: set<PackKey>, key: PackKey)
    requires now == t.(packs := t.packs - gone) && key !in kept
    requires NamedPacksIn(t, kept)
    ensures Harmless(now, DeletePack(key))
    ensures Applied(now, DeletePack(key)) == t.(packs := t.packs - (gone + {key}))
  {
    assert Referenced(now) == Referenced(t);
  }

  // ------------------------------------------------------------- the writes of a sweep

  function PackDrops(packs: seq<PackInfo>, kept: set<PackKey>): seq<Write> {
    if packs == [] then []
    else
      var n, key := |packs| - 1, packs[|packs| - 1].key;
      PackDrops(packs[..n], kept) + if key in kept then [] else [DeletePack(key)]
  }

  /** For each superseded generation in listing order its packs that nothing else lists, then its manifest. */
  function SweepDrops(s: State, swept: set<GenerationId>, kept: set<PackKey>, ids: seq<GenerationId>): seq<Write> {
    if ids == [] then []
    else
      var n, x := |ids| - 1, ids[|ids| - 1];
      SweepDrops(s, swept, kept, ids[..n])
      + if x in swept && x in s.generations then PackDrops(s.generations[x].packs, kept) + [DeleteGeneration(x)] else []
  }

  function OrphanDrops(packs: map<PackKey, Time>, keys: seq<PackKey>, kept: set<PackKey>, cutoff: Time): seq<Write> {
    if keys == [] then []
    else
      var n, key := |keys| - 1, keys[|keys| - 1];
      OrphanDrops(packs, keys[..n], kept, cutoff)
      + if key in packs && key !in kept && packs[key] < cutoff then [DeletePack(key)] else []
  }

  lemma NextPackDrop(packs: seq<PackInfo>, kept: set<PackKey>, i: nat)
    requires i < |packs|
    ensures var so := PackDrops(packs[..i], kept);
            PackDrops(packs[..i + 1], kept) == if packs[i].key in kept then so else so + [DeletePack(packs[i].key)]
  {
    assert packs[..i + 1][..i] == packs[..i] && packs[..i + 1][i] == packs[i];
  }

  lemma {:induction false} PackDropsGrow(packs: seq<PackInfo>, kept: set<PackKey>, i: nat)
    requires i <= |packs|
    ensures PackDrops(packs[..i], kept) <= PackDrops(packs, kept)
    ensures i < |packs| ==>
              var so := PackDrops(packs[..i], kept);
              PackDrops(packs[..i + 1], kept) == if packs[i].key in kept then so else so + [DeletePack(packs[i].key)]
    decreases |packs| - i
  {
    hide PackDrops;
    if i < |packs| {
      NextPackDrop(packs, kept, i);
      PackDropsGrow(packs, kept, i + 1);
    } else {
      assert packs[..i] == packs;
    }
  }

  lemma NextSweepDrop(s: State, swept: set<GenerationId>, kept: set<PackKey>, ids: seq<GenerationId>, i: nat)
    requires i < |ids|
    ensures var x := ids[i];
            var so := SweepDrops(s, swept, kept, ids[..i]);
            SweepDrops(s, swept, kept, ids[..i + 1])
            == if x in swept && x in s.generations then so + (PackDrops(s.generations[x].packs, kept) + [DeleteGeneration(x)]) else so
  {
    hide PackDrops;
    assert ids[..i + 1][..i] == ids[..i] && ids[..i + 1][i] == ids[i];
  }

  lemma {:induction false} SweepDropsGrow(s: State, swept: set<GenerationId>, kept: set<PackKey>, ids: seq<GenerationId>, i: nat)
    requires i <= |ids|
    ensures SweepDrops(s, swept, kept, ids[..i]) <= SweepDrops(s, swept, kept, ids)
    ensures i < |ids| ==>
              var x := ids[i];
              var so := SweepDrops(s, swept, kept, ids[..i]);
              SweepDrops(s, swept, kept, ids[..i + 1])
              == if x in swept && x in s.generations then so + (PackDrops(s.generations[x].packs, kept) + [DeleteGeneration(x)]) else so
    decreases |ids| - i
  {
    hide SweepDrops;
    if i < |ids| {
      NextSweepDrop(s, swept, kept, ids, i);
      SweepDropsGrow(s, swept, kept, ids, i + 1);
    } else {
      assert ids[..i] == ids;
    }
  }

  lemma NextOrphanDrop(packs: map<PackKey, Time>, keys: seq<PackKey>, kept: set<PackKey>, cutoff: Time, i: nat)
    requires i < |keys|
    ensures var key := keys[i];
            var so := OrphanDrops(packs, keys[..i], kept, cutoff);
            OrphanDrops(packs, keys[..i + 1], kept, cutoff)
            == if key in packs && key !in kept && packs[key] < cutoff then so + [DeletePack(key)] else so
  {
    assert keys[..i + 1][..i] == keys[..i] && keys[..i + 1][i] == keys[i];
  }

  lemma {:induction false} OrphanDropsGrow(packs: map<PackKey, Time>, keys: seq<PackKey>, kept: set<PackKey>, cutoff: Time, i: nat)
    requires i <= |keys|
    ensures OrphanDrops(packs, keys[..i], kept, cutoff) <= OrphanDrops(packs, keys, kept, cutoff)
    ensures i < |keys| ==>
              var key := keys[i];
              var so := OrphanDrops(packs, keys[..i], kept, cutoff);
              OrphanDrops(packs, keys[..i + 1], kept, cutoff)
              == if key in packs && key !in kept && packs[key] < cutoff then so + [DeletePack(key)] else so
    decreases |keys| - i
  {
    hide OrphanDrops;
    if i < |keys| {
      NextOrphanDrop(packs, keys, kept, cutoff, i);
      OrphanDropsGrow(packs, keys, kept, cutoff, i + 1);
    } else {
      assert keys[..i] == keys;
    }
  }

  /** The orphans depend on the listed packs only. */
  lemma {:induction false} OrphanDropsDepend(
    a: map<PackKey, Time>, b: map<PackKey, Time>, keys: seq<PackKey>, kept: set<PackKey>, cutoff: Time)
    requires forall k | k in keys :: k in a && k in b && a[k] == b[k]
    ensures OrphanDrops(a, keys, kept, cutoff) == OrphanDrops(b, keys, kept, cutoff)
  {
    if keys != [] {
      OrphanDropsDepend(a, b, keys[..|keys| - 1], kept, cutoff);
    }
  }

  lemma NothingDropped(t: State, s: State, swept: set<GenerationId>, kept: set<PackKey>, cutoff: Time)
    ensures AfterWrites(t, PackDrops([], kept)) == t
    ensures AfterWrites(t, SweepDrops(s, swept, kept, [])) == t
    ensures AfterWrites(t, OrphanDrops(s.packs, [], kept, cutoff)) == t
  {
  }

  /** Deleting what is not there changes nothing. */
  lemma DropAbsent(t: State, key: PackKey)
    requires key !in t.packs
    ensures Applied(t, DeletePack(key)) == t
  {
    assert t.packs - {key} == t.packs;
  }

  /** The packs that no kept generation lists go one by one. */
  method DeletePacks(
    store: ObjectStore, packs: seq<PackInfo>, kept: set<PackKey>, deleted: set<PackKey>, ghost g: Graph)
    returns (ok: bool, nowDeleted: set<PackKey>)
    requires NamedPacksIn(store.state, kept) && deleted !! kept
    requires deleted !! store.state.packs.Keys
    modifies store
    ensures store.faults == old(store.faults) + if ok then 0 else 1
    ensures Reached(false, old(store.state), PackDrops(packs, kept), store.state)
    ensures ok ==> store.state == AfterWrites(old(store.state), PackDrops(packs, kept))
    ensures Kept(g, old(store.state), store.state, true, true)
    ensures store.state == old(store.state).(packs := old(store.state).packs - (nowDeleted - deleted))
    ensures deleted <= nowDeleted && nowDeleted !! kept
    ensures ok ==> nowDeleted == deleted + (KeysOf(packs) - kept)
  {
    hide Kept, Covered, Integrity, Harmless, Applied, NamedPacksIn, Referenced, Reached, AfterWrites, PackDrops;
    ghost var t := store.state;
    KeptStart(g, t, true, true);
    NothingDropped(t, t, {}, kept, 0);
    assert packs[..0] == [];
    ghost var all := PackDrops(packs, kept);
    nowDeleted := deleted;
    assert t.packs - (nowDeleted - deleted) == t.packs;
    for i := 0 to |packs|
      invariant store.faults == old(store.faults)
      invariant nowDeleted == deleted + (KeysOf(packs[..i]) - kept)
      invariant store.state == t.(packs := t.packs - (nowDeleted - deleted))
      invariant store.state == AfterWrites(t, PackDrops(packs[..i], kept))
      invariant Kept(g, t, store.state, true, true)
    {
      var key := packs[i].key;
      KeysOfNext(packs, i);
      PackDropsGrow(packs, kept, i);
      ReachedAfter(t, PackDrops(packs[..i], kept), all, store.state);
      AfterOneMore(t, PackDrops(packs[..i], kept), DeletePack(key));
      if key in kept || key in nowDeleted {
        if key !in kept {
          DropAbsent(store.state, key);
        }
        continue;
      }
      ghost var now := store.state;
      DeleteOneMore(t, now, kept, nowDeleted - deleted, key);
      ok := store.Perform(DeletePack(key), g);
      KeptThen(g, t, now, store.state, true, true, Harmless(now, DeletePack(key)), Covering(g, now, DeletePack(key)));
      if !ok {
        return;
      }
      assert (nowDeleted - deleted) + {key} == nowDeleted + {key} - deleted;
      nowDeleted := nowDeleted + {key};
    }
    assert packs[..|packs|] == packs;
    ReachedAfter(t, all, all, store.state);
    ok := true;
  }

  /** Deletes one swept generation, after those of its packs that are neither kept nor deleted already. */
  method DeleteGenerationAndPacks(
    store: ObjectStore, id: GenerationId, packs: seq<PackInfo>, kept: set<PackKey>, deleted: set<PackKey>, ghost g: Graph)
    returns (ok: bool, nowDeleted: set<PackKey>)
    requires id !in Referenced(store.state) && NamedPacksIn(store.state, kept) && deleted !! kept
    requires deleted !! store.state.packs.Keys
    modifies store
    ensures store.faults == old(store.faults) + if ok then 0 else 1
    ensures Reached(false, old(store.state), PackDrops(packs, kept) + [DeleteGeneration(id)], store.state)
    ensures ok ==> store.state == AfterWrites(old(store.state), PackDrops(packs, kept) + [DeleteGeneration(id)])
    ensures Kept(g, old(store.state), store.state, true, true)
    ensures store.state == WithoutGenerations(old(store.state), if ok then {id} else {}, nowDeleted - deleted)
    ensures deleted <= nowDeleted && nowDeleted !! kept
    ensures ok ==> nowDeleted == deleted + (KeysOf(packs) - kept)
  {
    hide Kept, Covered, Integrity, Harmless, Applied, NamedPacksIn, Referenced, Reached, AfterWrites, PackDrops, KeysOf;
    ghost var t := store.state;
    ghost var drops, all := PackDrops(packs, kept), PackDrops(packs, kept) + [DeleteGeneration(id)];
    ok, nowDeleted := DeletePacks(store, packs, kept, deleted, g);
    ghost var now := store.state;
    ReachedWithin(false, false, t, drops, [DeleteGeneration(id)], now);
    assert t.generations - {} == t.generations;
    if !ok {
      return;
    }
    DropGeneration(t, now, id);
    AfterOneMore(t, drops, DeleteGeneration(id));
    ReachedEnds(false, t, all);
    ok := store.Perform(DeleteGeneration(id), g);
    KeptThen(g, t, now, store.state, true, true,
             Harmless(now, DeleteGeneration(id)), Covering(g, now, DeleteGeneration(id)));
  }

  function KeysOf(packs: seq<PackInfo>): set<PackKey> {
    set p | p in packs :: p.key
  }

  lemma KeysOfNext(packs: seq<PackInfo>, i: nat)
    requires i < |packs|
    ensures KeysOf(packs[..i + 1]) == KeysOf(packs[..i]) + {packs[i].key}
  {
    assert packs[..i + 1] == packs[..i] + [packs[i]];
  }

  lemma DropGeneration(t: State, now: State, id: GenerationId)
    requires now == t.(packs := now.packs) && id !in Referenced(t)
    ensures Harmless(now, DeleteGeneration(id)) && id !in Referenced(now)
    ensures Applied(now, DeleteGeneration(id)) == now.(generations := t.generations - {id})
  {
    assert Referenced(now) == Referenced(t);
  }

  /** The listed packs that no kept generation lists and that were written before the cutoff. */
  function OrphansAmong(packs: map<PackKey, Time>, listed: seq<PackKey>, kept: set<PackKey>, cutoff: Time): set<PackKey> {
    set k | k in listed && k in packs && k !in kept && packs[k] < cutoff
  }

  lemma OrphansAmongNext(packs: map<PackKey, Time>, listed: seq<PackKey>, i: nat, kept: set<PackKey>, cutoff: Time)
    requires i < |listed|
    requires forall j, k :: 0 <= j < k < |listed| ==> listed[j] != listed[k]
    ensures var key := listed[i];
            && key !in OrphansAmong(packs, listed[..i], kept, cutoff)
            && OrphansAmong(packs, listed[..i + 1], kept, cutoff)
               == OrphansAmong(packs, listed[..i], kept, cutoff)
                + if key in packs && key !in kept && packs[key] < cutoff then {key} else {}
  {
  }

  lemma OrphansAmongNone(t: State, listed: seq<PackKey>, kept: set<PackKey>, cutoff: Time)
    ensures OrphansAmong(t.packs, listed[..0], kept, cutoff) == {}
    ensures listed[..|listed|] == listed
    ensures t.(packs := t.packs - {}) == t
  {
  }

  /** Goes through listed packs. */
  method DeleteListed(
    store: ObjectStore, keys: seq<PackKey>, kept: set<PackKey>, deleted: set<PackKey>, cutoff: Time, ghost g: Graph)
    returns (ok: bool, orphans: set<PackKey>)
    requires forall k | k in keys :: k in store.state.packs
    requires forall i, j | 0 <= i < j < |keys| :: keys[i] != keys[j]
    requires deleted !! store.state.packs.Keys && NamedPacksIn(store.state, kept)
    modifies store
    ensures store.faults == old(store.faults) + if ok then 0 else 1
    ensures Kept(g, old(store.state), store.state, true, true)
    ensures store.state == old(store.state).(packs := old(store.state).packs - orphans)
    ensures orphans !! kept
    ensures ok ==> orphans == OrphansAmong(old(store.state).packs, keys, kept, cutoff)
    ensures Reached(false, old(store.state), OrphanDrops(old(store.state).packs, keys, kept, cutoff), store.state)
    ensures ok ==> store.state == AfterWrites(old(store.state), OrphanDrops(old(store.state).packs, keys, kept, cutoff))
  {
    hide Kept, Covered, Integrity, Harmless, Applied, OrphansAmong, NamedPacksIn, Reached, AfterWrites, OrphanDrops;
    ghost var t := store.state;
    KeptStart(g, t, true, true);
    NothingDropped(t, t, {}, kept, cutoff);
    assert keys[..0] == [];
    ghost var all := OrphanDrops(t.packs, keys, kept, cutoff);
    orphans := {};
    OrphansAmongNone(t, keys, kept, cutoff);
    for i := 0 to |keys|
      invariant store.faults == old(store.faults)
      invariant orphans == OrphansAmong(t.packs, keys[..i], kept, cutoff) && orphans !! kept
      invariant store.state == t.(packs := t.packs - orphans)
      invariant store.state == AfterWrites(t, OrphanDrops(t.packs, keys[..i], kept, cutoff))
      invariant Kept(g, t, store.state, true, true)
    {
      var key := keys[i];
      OrphansAmongNext(t.packs, keys, i, kept, cutoff);
      OrphanDropsGrow(t.packs, keys, kept, cutoff, i);
      ReachedAfter(t, OrphanDrops(t.packs, keys[..i], kept, cutoff), all, store.state);
      AfterOneMore(t, OrphanDrops(t.packs, keys[..i], kept, cutoff), DeletePack(key));
      if key in kept || key in deleted {
        continue;
      }
      if store.state.packs[key] < cutoff {
        ghost var now := store.state;
        DeleteOneMore(t, now, kept, orphans, key);
        ok := store.Perform(DeletePack(key), g);
        KeptThen(g, t, now, store.state, true, true, Harmless(now, DeletePack(key)), Covering(g, now, DeletePack(key)));
        if !ok {
          return;
        }
        orphans := orphans + {key};
      }
    }
    assert keys[..|keys|] == keys;
    ReachedAfter(t, all, all, store.state);
    return true, orphans;
  }

  /** Deletes the listed orphans; a listing cut off at the scan limit leaves the rest for the next sweep. */
  method DeleteOrphans(store: ObjectStore, kept: set<PackKey>, deleted: set<PackKey>, cutoff: Time, ghost g: Graph)
    returns (ok: bool, orphans: set<PackKey>, ghost listed: seq<PackKey>)
    requires deleted !! store.state.packs.Keys && NamedPacksIn(store.state, kept)
    modifies store
    ensures store.faults == old(store.faults) + if ok then 0 else 1
    ensures Kept(g, old(store.state), store.state, true, true)
    ensures store.state == old(store.state).(packs := old(store.state).packs - orphans)
    ensures orphans !! kept
    ensures ok ==> orphans == OrphansAmong(old(store.state).packs, listed, kept, cutoff)
    ensures |old(store.state).packs| < MAX_SCAN_KEYS ==> forall k | k in old(store.state).packs :: k in listed
    ensures forall k | k in listed :: k in old(store.state).packs
    ensures Reached(false, old(store.state), OrphanDrops(old(store.state).packs, listed, kept, cutoff), store.state)
    ensures ok ==> store.state == AfterWrites(old(store.state), OrphanDrops(old(store.state).packs, listed, kept, cutoff))
  {
    hide Kept, Covered, Integrity, Harmless, Applied, OrphansAmong, NamedPacksIn, Reached, AfterWrites, OrphanDrops;
    var keys := ListPacks(store.state);
    listed := keys;
    ok, orphans := DeleteListed(store, keys, kept, deleted, cutoff, g);
  }

  datatype SweepReport = SweepReport(swept: seq<GenerationId>, deletedPacks: nat)

  /** A generation that is not superseded keeps its manifest and every pack it had. */
  ghost predicate NothingKeptIsLost(s: State, t: State, ids: set<GenerationId>) {
    forall x | x in s.generations && x !in ids ::
      && x in t.generations && t.generations[x] == s.generations[x]
      && forall k | k in s.generations[x].PackKeys() && k in s.packs :: k in t.packs
  }

  lemma WhatStays(s: State, t: State, ids: set<GenerationId>, dropped: set<GenerationId>, gone: set<PackKey>)
    requires gone !! KeptPacks(s, ids) && dropped <= ids
    requires t.packs == s.packs - gone && t.generations == s.generations - dropped
    ensures NothingKeptIsLost(s, t, ids)
  {
  }

  /** After repointing, only generations outside the swept set are named, and their packs are kept. */
  lemma NamedAfterRepoint(s: State, ids: set<GenerationId>, t: State)
    requires s.head.Some? && s.head.value.generation !in ids
    requires t == if ids == {} then s else Repointed(s, ids, s.head.value.generation)
    ensures ids !! Referenced(t) && NamedPacksIn(t, KeptPacks(s, ids))
    ensures t.packs == s.packs && t.generations == s.generations && t.head == s.head
  {
    hide Repointed;
    if ids != {} {
      RepointedNames(s, ids, s.head.value.generation);
      RepointedFrame(s, ids, s.head.value.generation);
    }
  }

  /** The deletion of every swept generation, in listing order. */
  method DeleteSwept(store: ObjectStore, s: State, ids: seq<GenerationId>, swept: set<GenerationId>, ghost g: Graph)
    returns (ok: bool, deleted: set<PackKey>, report: seq<GenerationId>, ghost gone: set<GenerationId>)
    requires swept !! Referenced(store.state) && NamedPacksIn(store.state, KeptPacks(s, swept))
    requires forall x :: x in ids <==> x in s.generations
    requires swept <= s.generations.Keys
    requires Distinct(ids)
    modifies store
    ensures store.faults == old(store.faults) + if ok then 0 else 1
    ensures Reached(false, old(store.state), SweepDrops(s, swept, KeptPacks(s, swept), ids), store.state)
    ensures ok ==> store.state == AfterWrites(old(store.state), SweepDrops(s, swept, KeptPacks(s, swept), ids))
    ensures Kept(g, old(store.state), store.state, true, true)
    ensures store.state == WithoutGenerations(old(store.state), gone, deleted)
    ensures gone <= swept && deleted !! KeptPacks(s, swept)
    ensures ok ==> gone == swept && deleted == ExclusivePacks(s, swept)
    ensures ok ==> Lists(report, swept)
  {
    hide Kept, Covered, Integrity, NamedPacksIn, Referenced, KeptPacks, ExclusivePacks, Reached, AfterWrites, SweepDrops, PackDrops;
    ghost var t := store.state;
    var kept := KeptPacks(s, swept);
    KeptStart(g, t, true, true);
    NothingDropped(t, s, swept, kept, 0);
    assert ids[..0] == [];
    deleted, report, gone := {}, [], {};
    PacksListed(s, swept, ids, 0);
    for i := 0 to |ids|
      invariant store.faults == old(store.faults)
      invariant gone <= swept && deleted !! kept
      invariant forall x :: x in gone <==> x in swept && x in ids[..i]
      invariant (forall x :: x in report <==> x in gone) && Distinct(report)
      invariant deleted == PacksOf(s, swept, ids[..i]) - kept
      invariant store.state == WithoutGenerations(t, gone, deleted)
      invariant store.state == AfterWrites(t, SweepDrops(s, swept, kept, ids[..i]))
      invariant Kept(g, t, store.state, true, true)
    {
      var x := ids[i];
      PacksListed(s, swept, ids, i);
      SweepDropsGrow(s, swept, kept, ids, i);
      if x !in swept {
        continue;
      }
      ghost var now, before := store.state, deleted;
      NamedUnchanged(t, now, kept, gone);
      ok, deleted := DeleteGenerationAndPacks(store, x, s.generations[x].packs, kept, deleted, g);
      OneGenerationMore(t, s, swept, kept, ids, i, now, store.state, ok);
      KeptThen(g, t, now, store.state, true, true, true, true);
      WithoutMore(t, gone, before, if ok then {x} else {}, deleted - before);
      assert before + (deleted - before) == deleted;
      if !ok {
        assert gone + {} == gone;
        return;
      }
      report, gone := report + [x], gone + {x};
    }
    assert gone == swept;
    AllPacksListed(s, swept, ids);
    ReachedAfter(t, SweepDrops(s, swept, kept, ids), SweepDrops(s, swept, kept, ids), store.state);
    return true, deleted, report, gone;
  }

  lemma OneGenerationMore(
    t: State, s: State, swept: set<GenerationId>, kept: set<PackKey>, ids: seq<GenerationId>, i: nat,
    now: State, after: State, ok: bool)
    requires i < |ids| && ids[i] in swept && ids[i] in s.generations
    requires now == AfterWrites(t, SweepDrops(s, swept, kept, ids[..i]))
    requires var ws := PackDrops(s.generations[ids[i]].packs, kept) + [DeleteGeneration(ids[i])];
             Reached(false, now, ws, after) && (ok ==> after == AfterWrites(now, ws))
    ensures Reached(false, t, SweepDrops(s, swept, kept, ids), after)
    ensures ok ==> after == AfterWrites(t, SweepDrops(s, swept, kept, ids[..i + 1]))
  {
    hide AfterWrites, Reached, SweepDrops, PackDrops;
    var a, ws := SweepDrops(s, swept, kept, ids[..i]), PackDrops(s.generations[ids[i]].packs, kept) + [DeleteGeneration(ids[i])];
    SweepDropsGrow(s, swept, kept, ids, i);
    SweepDropsGrow(s, swept, kept, ids, i + 1);
    AfterBoth(t, a, ws);
    ReachedBeyond(false, t, a, ws, after);
    var all := SweepDrops(s, swept, kept, ids);
    assert all == (a + ws) + all[|a + ws|..];
    ReachedWithin(false, false, t, a + ws, all[|a + ws|..], after);
  }

  /** The packs of those listed generations that are in a set. */
  function PacksOf(s: State, swept: set<GenerationId>, ids: seq<GenerationId>): set<PackKey> {
    set x, k | x in ids && x in swept && x in s.generations && k in s.generations[x].PackKeys() :: k
  }

  lemma PacksListed(s: State, swept: set<GenerationId>, ids: seq<GenerationId>, i: nat)
    requires i <= |ids|
    ensures ids[..0] == [] && PacksOf(s, swept, []) == {}
    ensures i < |ids| ==> PacksOf(s, swept, ids[..i + 1])
                          == PacksOf(s, swept, ids[..i])
                           + if ids[i] in swept && ids[i] in s.generations then KeysOf(s.generations[ids[i]].packs) else {}
  {
    if i < |ids| {
      assert ids[..i + 1] == ids[..i] + [ids[i]];
      var one := if ids[i] in swept && ids[i] in s.generations then KeysOf(s.generations[ids[i]].packs) else {};
      forall k | k in one
        ensures k in PacksOf(s, swept, ids[..i + 1])
      {
        assert k in s.generations[ids[i]].PackKeys() && ids[i] in ids[..i + 1];
      }
      forall k | k in PacksOf(s, swept, ids[..i + 1])
        ensures k in PacksOf(s, swept, ids[..i]) + one
      {
      }
      forall k | k in PacksOf(s, swept, ids[..i])
        ensures k in PacksOf(s, swept, ids[..i + 1])
      {
        var x :| x in ids[..i] && x in swept && x in s.generations && k in s.generations[x].PackKeys();
        assert x in ids[..i + 1];
      }
    }
  }

  lemma AllPacksListed(s: State, swept: set<GenerationId>, ids: seq<GenerationId>)
    requires forall x :: x in ids <==> x in s.generations
    ensures ids[..|ids|] == ids
    ensures PacksOf(s, swept, ids) - KeptPacks(s, swept) == ExclusivePacks(s, swept)
  {
    assert ids[..|ids|] == ids;
  }

  lemma NamedUnchanged(t: State, now: State, kept: set<PackKey>, gone: set<GenerationId>)
    requires now == t.(packs := now.packs, generations := now.generations)
    requires now.generations == t.generations - gone
    ensures Referenced(now) == Referenced(t)
    ensures NamedPacksIn(t, kept) ==> NamedPacksIn(now, kept)
  {
  }

  lemma WithoutMore(t: State, ids: set<GenerationId>, packs: set<PackKey>, moreIds: set<GenerationId>, morePacks: set<PackKey>)
    ensures WithoutGenerations(WithoutGenerations(t, ids, packs), moreIds, morePacks)
            == WithoutGenerations(t, ids + moreIds, packs + morePacks)
  {
  }

  /** The moves of a sweep: none when nothing is superseded. */
  function SweepMoves(s: State, swept: set<GenerationId>, ck: seq<ObjectId>, rk: seq<RefName>): seq<Write>
    requires s.head.Some?
  {
    if swept == {} then [] else RepointScript(s, ck, rk, swept, s.head.value.generation)
  }

  /** The orders in which a sweep lists what it goes through; the pack listing may be cut off. */
  datatype SweepOrder = SweepOrder(ck: seq<ObjectId>, rk: seq<RefName>, ids: seq<GenerationId>, listed: seq<PackKey>)

  ghost predicate OrderFor(s: State, o: SweepOrder) {
    && Lists(o.ck, s.commits.Keys) && Lists(o.rk, s.refs.Keys) && Lists(o.ids, s.generations.Keys)
    && forall k | k in o.listed :: k in s.packs
  }

  /** Every write of a sweep: manifests move to the head, superseded generations go, then orphaned packs. */
  function SweepScript(s: State, cutoff: Time, o: SweepOrder): seq<Write>
    requires s.head.Some?
  {
    var swept := Superseded(s, cutoff);
    var kept := KeptPacks(s, swept);
    SweepMoves(s, swept, o.ck, o.rk) + SweepDrops(s, swept, kept, o.ids) + OrphanDrops(s.packs, o.listed, kept, cutoff)
  }

  /** Repoints what names a superseded generation to the head, if there is any. */
  method RepointToHead(store: ObjectStore, swept: set<GenerationId>, cutoff: Time, ghost g: Graph)
    returns (ok: bool, ghost ck: seq<ObjectId>, ghost rk: seq<RefName>)
    requires Integrity(store.state) && store.state.head.Some? && swept == Superseded(store.state, cutoff)
    modifies store
    ensures store.faults == old(store.faults) + if ok then 0 else 1
    ensures var s := old(store.state);
            && Kept(g, s, store.state, true, HeadTakesOver(s, cutoff))
            && NothingKeptIsLost(s, store.state, swept)
            && (ok ==> store.state == if swept == {} then s else Repointed(s, swept, s.head.value.generation))
            && Lists(ck, s.commits.Keys) && Lists(rk, s.refs.Keys)
            && Reached(false, s, SweepMoves(s, swept, ck, rk), store.state)
            && (ok ==> store.state == AfterWrites(s, SweepMoves(s, swept, ck, rk)))
  {
    hide Kept, Covered, KeptPacks, Repointed, NothingKeptIsLost, HeadTakesOver, Superseded, Reached, AfterWrites, RepointScript, Lists;
    ghost var s := store.state;
    ck := ListingExists(s.commits.Keys);
    rk := ListingExists(s.refs.Keys);
    KeptStart(g, s, true, HeadTakesOver(s, cutoff));
    NothingLostYet(s, s, swept);
    HeadTakesOverMeans(s, cutoff);
    if swept == {} {
      ReachedEnds(false, s, []);
      AfterOneMore(s, [], DeleteGeneration(s.head.value.generation));
      return true, ck, rk;
    }
    var head := store.state.head.value.generation;
    ok, ck, rk := Repoint(store, swept, head, g);
    NothingLostYet(s, store.state, swept);
    KeptThen(g, s, s, store.state, true, HeadTakesOver(s, cutoff), Usable(s, head), TakesOver(s, swept, head));
  }

  lemma NothingLostYet(s: State, t: State, ids: set<GenerationId>)
    requires t.packs == s.packs && t.generations == s.generations
    ensures NothingKeptIsLost(s, t, ids)
  {
  }

  /** Deletes the superseded generations, then the orphaned packs. */
  method RemoveSwept(store: ObjectStore, s: State, ids: seq<GenerationId>, swept: set<GenerationId>, cutoff: Time, ghost g: Graph)
    returns (ok: bool, report: SweepReport, orphans: set<PackKey>, ghost listed: seq<PackKey>)
    requires swept !! Referenced(store.state) && NamedPacksIn(store.state, KeptPacks(s, swept))
    requires store.state.packs == s.packs && store.state.generations == s.generations
    requires forall x :: x in ids <==> x in s.generations
    requires swept <= s.generations.Keys && Distinct(ids)
    modifies store
    ensures store.faults == old(store.faults) + if ok then 0 else 1
    ensures var kept := KeptPacks(s, swept);
            var ws := SweepDrops(s, swept, kept, ids) + OrphanDrops(s.packs, listed, kept, cutoff);
            && Reached(false, old(store.state), ws, store.state)
            && (ok ==> store.state == AfterWrites(old(store.state), ws))
            && forall k | k in listed :: k in s.packs
    ensures Kept(g, old(store.state), store.state, true, true)
    ensures NothingKeptIsLost(s, store.state, swept)
    ensures ok ==>
              && store.state == WithoutGenerations(old(store.state), swept, ExclusivePacks(s, swept) + orphans)
              && orphans == OrphansAmong(s.packs - ExclusivePacks(s, swept), listed, KeptPacks(s, swept), cutoff)
              && (|s.packs| < MAX_SCAN_KEYS ==> forall k | k in store.state.packs :: k in listed)
              && Lists(report.swept, swept)
              && report.deletedPacks == |ExclusivePacks(s, swept)| + |orphans|
  {
    hide Kept, Covered, Integrity, Referenced, NamedPacksIn, KeptPacks, ExclusivePacks, NothingKeptIsLost, OrphansAmong,
         Reached, AfterWrites, SweepDrops, OrphanDrops;
    ghost var t := store.state;
    orphans, listed, report := {}, [], SweepReport([], 0);
    var deleted, names;
    ghost var gone;
    ok, deleted, names, gone := DeleteSwept(store, s, ids, swept, g);
    ghost var u := store.state;
    WhatStays(s, u, swept, gone, deleted);
    var kept := KeptPacks(s, swept);
    ghost var drops := SweepDrops(s, swept, kept, ids);
    ReachedWithin(false, false, t, drops, OrphanDrops(s.packs, [], kept, cutoff), u);
    if !ok {
      return;
    }
    NamedUnchanged(t, u, kept, swept);
    ok, orphans, listed := DeleteOrphans(store, kept, deleted, cutoff, g);
    OrphanDropsDepend(u.packs, s.packs, listed, kept, cutoff);
    ReachedBeyond(false, t, drops, OrphanDrops(s.packs, listed, kept, cutoff), store.state);
    AfterBoth(t, drops, OrphanDrops(s.packs, listed, kept, cutoff));
    KeptThen(g, t, u, store.state, true, true, true, true);
    AfterOrphans(s, t, swept, deleted, orphans, store.state);
    report := SweepReport(names, |deleted| + |orphans|);
  }

  /**
    The retention sweep.  At every crash point integrity holds and no generation
    that is not superseded has lost its manifest or a pack; a sweep that runs to
    the end leaves exactly the swept store.  Coverage survives when the head
    takes over the commits of the superseded generations.
  */
  method SweepSuperseded(store: ObjectStore, cutoff: Time, ghost g: Graph)
    returns (r: Result<SweepReport, Error>, orphans: set<PackKey>, ghost listed: seq<PackKey>, ghost order: SweepOrder)
    requires Integrity(store.state)
    modifies store
    ensures store.faults == old(store.faults) + if r == Err(Unavailable) then 1 else 0
    ensures r.Err? && r != Err(Unavailable) ==>
              r == Err(Conflict) && old(store.state).head.Some? && |old(store.state).generations| >= MAX_SCAN_KEYS
    ensures old(store.state).head.None? ==> r == Ok(SweepReport([], 0))
    ensures old(store.state).head.None? ==> store.state == old(store.state)
    ensures old(store.state).head.Some? ==>
              && OrderFor(old(store.state), order)
              && Reached(false, old(store.state), SweepScript(old(store.state), cutoff, order), store.state)
    ensures old(store.state).head.Some? ==>
              var s := old(store.state);
              && Kept(g, s, store.state, true, HeadTakesOver(s, cutoff))
              && NothingKeptIsLost(s, store.state, Superseded(s, cutoff))
              && (|s.generations| >= MAX_SCAN_KEYS ==> r.Err? && store.state == s)
    ensures r.Ok? && old(store.state).head.Some? ==>
              var s := old(store.state);
              var ids := Superseded(s, cutoff);
              && store.state == Swept(s, cutoff, orphans) && store.state == AfterWrites(s, SweepScript(s, cutoff, order))
              && orphans == OrphansAmong(s.packs - ExclusivePacks(s, ids), listed, KeptPacks(s, ids), cutoff)
              && (|s.packs| < MAX_SCAN_KEYS ==> forall k | k in store.state.packs :: k in listed)
              && Lists(r.value.swept, ids)
              && r.value.deletedPacks == |ExclusivePacks(s, ids)| + |orphans|
  {
    hide Kept, Covered, Integrity, Referenced, NamedPacksIn, KeptPacks, ExclusivePacks, Superseded, Repointed,
         NothingKeptIsLost, OrphansAmong, HeadTakesOver, WithoutGenerations, Reached, AfterWrites, SweepDrops, OrphanDrops,
         SweepMoves, Lists;
    orphans, listed := {}, [];
    var s := store.state;
    order := AnyOrder(s);
    if s.head.None? {
      return Ok(SweepReport([], 0)), orphans, listed, order;
    }
    SweepReached(s, cutoff, order, s, 0);
    ghost var covering := HeadTakesOver(s, cutoff);
    HeadStays(s, cutoff);
    KeptStart(g, s, true, covering);
    NothingLostYet(s, s, Superseded(s, cutoff));
    var found := ListGenerationIds(s);
    if found.Err? {
      return Err(found.error), orphans, listed, order;
    }
    var swept := FindSuperseded(s, found.value, cutoff);
    var ok;
    ghost var ck, rk;
    ok, ck, rk := RepointToHead(store, swept, cutoff, g);
    order := SweepOrder(ck, rk, found.value, []);
    ListedOrder(s, order, found.value);
    SweepReached(s, cutoff, order, store.state, 0);
    if !ok {
      return Err(Unavailable), orphans, listed, order;
    }
    ghost var t := store.state;
    NamedAfterRepoint(s, swept, t);
    var report;
    ok, report, orphans, listed := RemoveSwept(store, s, found.value, swept, cutoff, g);
    KeptThen(g, s, t, store.state, true, covering, true, true);
    order := SweepOrder(ck, rk, found.value, listed);
    ListedOrder(s, order, found.value);
    SweepReached(s, cutoff, order, store.state, 1);
    if !ok {
      return Err(Unavailable), orphans, listed, order;
    }
    return Ok(report), orphans, listed, order;
  }

  lemma AnyOrder(s: State) returns (o: SweepOrder)
    ensures OrderFor(s, o)
  {
    hide Lists;
    var ck := ListingExists(s.commits.Keys);
    var rk := ListingExists(s.refs.Keys);
    var ids := ListingExists(s.generations.Keys);
    o := SweepOrder(ck, rk, ids, []);
  }

  lemma ListedOrder(s: State, o: SweepOrder, ids: seq<GenerationId>)
    requires Lists(o.ck, s.commits.Keys) && Lists(o.rk, s.refs.Keys) && o.ids == ids
    requires forall x :: x in ids <==> x in s.generations
    requires forall i, j | 0 <= i < j < |ids| :: ids[i] != ids[j]
    requires forall k | k in o.listed :: k in s.packs
    ensures OrderFor(s, o)
  {
  }

  /** Wherever a sweep stops, moving or removing, it stops within its script. */
  lemma SweepReached(s: State, cutoff: Time, o: SweepOrder, t: State, part: nat)
    requires s.head.Some?
    requires var swept := Superseded(s, cutoff);
             var kept := KeptPacks(s, swept);
             var moves := SweepMoves(s, swept, o.ck, o.rk);
             if part == 0 then t == s || Reached(false, s, moves, t)
             else Reached(false, AfterWrites(s, moves), SweepDrops(s, swept, kept, o.ids) + OrphanDrops(s.packs, o.listed, kept, cutoff), t)
    ensures Reached(false, s, SweepScript(s, cutoff, o), t)
    ensures var swept := Superseded(s, cutoff);
            var kept := KeptPacks(s, swept);
            var u := AfterWrites(s, SweepMoves(s, swept, o.ck, o.rk));
            AfterWrites(s, SweepScript(s, cutoff, o))
            == AfterWrites(u, SweepDrops(s, swept, kept, o.ids) + OrphanDrops(s.packs, o.listed, kept, cutoff))
  {
    hide AfterWrites, Reached, SweepMoves, SweepDrops, OrphanDrops, Superseded, KeptPacks;
    var swept := Superseded(s, cutoff);
    var kept := KeptPacks(s, swept);
    var a, b, c := SweepMoves(s, swept, o.ck, o.rk), SweepDrops(s, swept, kept, o.ids), OrphanDrops(s.packs, o.listed, kept, cutoff);
    assert SweepScript(s, cutoff, o) == a + (b + c);
    ReachedEnds(false, s, a);
    AfterBoth(s, a, b + c);
    if part == 0 {
      ReachedWithin(false, false, s, a, b + c, t);
    } else {
      ReachedBeyond(false, s, a, b + c, t);
    }
  }

  lemma {:induction false} SubsetSize<T>(a: set<T>, b: set<T>)
    requires a <= b
    ensures |a| <= |b|
  {
    if a != {} {
      var x :| x in a;
      SubsetSize(a - {x}, b - {x});
    }
  }

  lemma MinusTwice<K, V>(m: map<K, V>, a: set<K>, b: set<K>)
    ensures m - a - b == m - (a + b)
    ensures |m - a| <= |m|
  {
    SubsetSize((m - a).Keys, m.Keys);
  }

  lemma AfterOrphans(s: State, t: State, swept: set<GenerationId>, deleted: set<PackKey>, orphans: set<PackKey>, v: State)
    requires t.packs == s.packs && t.generations == s.generations
    requires var u := WithoutGenerations(t, swept, deleted); v == u.(packs := u.packs - orphans)
    requires deleted !! KeptPacks(s, swept) && orphans !! KeptPacks(s, swept)
    ensures v == WithoutGenerations(t, swept, deleted + orphans)
    ensures NothingKeptIsLost(s, v, swept)
    ensures |WithoutGenerations(t, swept, deleted).packs| <= |s.packs|
  {
    hide NothingKeptIsLost, KeptPacks;
    MinusTwice(t.packs, deleted, orphans);
    assert deleted + orphans !! KeptPacks(s, swept);
    WhatStays(s, v, swept, swept, deleted + orphans);
  }

  lemma HeadTakesOverMeans(s: State, cutoff: Time)
    requires s.head.Some? && Integrity(s)
    ensures HeadTakesOver(s, cutoff) == TakesOver(s, Superseded(s, cutoff), s.head.value.generation)
    ensures Usable(s, s.head.value.generation)
  {
  }
}
