/**
  The local bare repository as the publisher sees it: refs into an immutable
  object graph, and the Git commands that may fail but, when they succeed, do
  what Git promises.
*/
module LocalRepo {
  import opened Wrappers
  import opened ObjectGraph
  import opened StoreState

  datatype Error = Unavailable | Conflict | NotFound | Internal

  /** Lists a set in some order. */
  method Listed<T(==)>(s: set<T>) returns (q: seq<T>)
    ensures forall x :: x in q <==> x in s
    ensures forall i, j :: 0 <= i < j < |q| ==> q[i] != q[j]
  {
    q := [];
    var rest := s;
    while rest != {}
      invariant rest <= s
      invariant forall i, j :: 0 <= i < j < |q| ==> q[i] != q[j]
      invariant forall x :: x in q <==> x in s - rest
      decreases |rest|
    {
      var x :| x in rest;
      assert x !in q;
      q, rest := q + [x], rest - {x};
    }
  }

  predicate Under(name: RefName, prefix: RefName) {
    prefix + "/" <= name
  }

  /** The commits of the refs under a prefix. */
  function CommitsOf(refs: map<RefName, ObjectId>, prefix: RefName): set<ObjectId> {
    set r | r in refs && Under(r, prefix) :: refs[r]
  }

  class Repo {
    const graph: Graph
    var refs: map<RefName, ObjectId>
    var headRef: Option<RefName>
    /** The packs with an index in the pack directory. */
    var packs: set<PackKey>
    /** How many commands have failed, and how many answers fell short because history is missing here. */
    ghost var failures: nat
    ghost var gaps: nat

    constructor (graph: Graph)
      ensures refs == map[] && headRef == None && packs == {} && this.graph == graph
      ensures failures == gaps == 0
    {
      this.graph := graph;
      refs, headRef, packs := map[], None, {};
      failures, gaps := 0, 0;
    }

    /** A command fails for reasons of its own. */
    method Fails() returns (failed: bool)
      modifies this`failures
      ensures failures == old(failures) + if failed then 1 else 0
    {
      failed := *;
      if failed {
        failures := failures + 1;
      }
    }

    /** History that an answer needs is missing. */
    method Misses() returns (missed: bool)
      modifies this`gaps
      ensures gaps == old(gaps) + if missed then 1 else 0
    {
      missed := *;
      if missed {
        gaps := gaps + 1;
      }
    }

    /** Everything that some ref reaches. */
    function Reachable(): set<ObjectId>
      reads this
    {
      Closure(graph, refs.Values)
    }

    function CommitsUnder(prefix: RefName): set<ObjectId>
      reads this
    {
      CommitsOf(refs, prefix)
    }

    /** The commits of refs that only the cache keeps. */
    function CacheTips(): set<ObjectId>
      reads this
    {
      CommitsUnder("refs/cache/commits") + CommitsUnder("refs/cache/upstream/heads")
    }

    method ForEachRefCommits(prefix: RefName) returns (commits: seq<ObjectId>)
      ensures forall c :: c in commits <==> c in CommitsUnder(prefix)
    {
      commits := Listed(CommitsUnder(prefix));
    }

    /** `pack-objects --revs`: what the included commits reach and the excluded ones do not. */
    method PackObjectsRevs(wanted: set<ObjectId>, excluded: set<ObjectId>) returns (r: Result<PackKey, Error>)
      modifies this`failures
      ensures r.Ok? ==> wanted != {} && r.value.objects == Closure(graph, wanted) - Closure(graph, excluded)
      ensures failures == old(failures) + if r.Err? && wanted != {} then 1 else 0
    {
      if wanted == {} {
        return Err(Internal);
      }
      var failed := Fails();
      if failed {
        return Err(Unavailable);
      }
      var encoding: nat := *;
      return Ok(PackKey(Closure(graph, wanted) - Closure(graph, excluded), encoding));
    }

    /** `repack -a -d`: the packs left hold exactly what the refs reach. */
    method RepackForServing() returns (r: Result<seq<PackKey>, Error>)
      modifies this`packs, this`failures
      ensures failures == old(failures) + if r.Ok? then 0 else 1
      ensures r.Ok? ==> (set k, o | k in r.value && o in k.objects :: o) == Reachable()
      ensures r.Ok? ==> packs == set k | k in r.value
      ensures r.Err? ==> packs == old(packs)
    {
      var failed := Fails();
      if failed {
        return Err(Unavailable);
      }
      ghost var one := [PackKey(Reachable(), 0)];
      assert (set k, o | k in one && o in k.objects :: o) == Reachable() by {
        assert one[0] in one;
      }
      var left: seq<PackKey> :| (set k, o | k in left && o in k.objects :: o) == Reachable();
      packs := set k | k in left;
      return Ok(left);
    }

    /** Whether a commit is known to be reached by a tip; a shallow repository may not know. */
    method IsAncestor(commit: ObjectId, tip: ObjectId) returns (r: Result<bool, Error>)
      modifies this`failures, this`gaps
      ensures failures == old(failures) + if r.Ok? then 0 else 1
      ensures r == Ok(true) ==> commit in Closure(graph, {tip})
      ensures old(gaps) <= gaps
      ensures r == Ok(false) && gaps == old(gaps) ==> commit !in Closure(graph, {tip})
    {
      var failed := Fails();
      if failed {
        return Err(Unavailable);
      }
      var unknown := Misses();
      return Ok(!unknown && commit in Closure(graph, {tip}));
    }

    /** Whether a commit is here. */
    method CommitExists(commit: ObjectId) returns (present: bool)
      modifies this`gaps
      ensures gaps == old(gaps) + if present then 0 else 1
    {
      var missing := Misses();
      return !missing;
    }

    /** Ref commits under the two cache prefixes whose history is known to contain a commit. */
    method RefsContaining(commit: ObjectId) returns (r: Result<seq<ObjectId>, Error>)
      modifies this`failures, this`gaps
      ensures failures == old(failures) + if r.Ok? then 0 else 1
      ensures old(gaps) <= gaps
      ensures r.Ok? ==> forall t | t in r.value :: t in CacheTips() && commit in Closure(graph, {t})
      ensures r.Ok? && gaps == old(gaps) ==> forall t | t in CacheTips() && commit in Closure(graph, {t}) :: t in r.value
    {
      var failed := Fails();
      if failed {
        return Err(Unavailable);
      }
      var candidates := CommitsUnder("refs/cache/commits") + CommitsUnder("refs/cache/upstream/heads");
      var tips := Listed(set t | t in candidates && commit in Closure(graph, {t}));
      var missed := Misses();
      if missed {
        var known: nat :| known <= |tips|;
        assert forall t | t in tips[..known] :: t in tips;
        tips := tips[..known];
      }
      return Ok(tips);
    }

    /**
      Downloads and indexes the packs of a generation that are not there yet, then
      applies its ref snapshot and last its HEAD.  A pack that is indexed locally
      is not asked for, so it may be gone from the store.
    */
    method HydrateGeneration(s: State, id: GenerationId) returns (r: Result<(), Error>)
      modifies this
      ensures old(packs) <= packs
      ensures packs != old(packs) ==> id in s.generations && packs <= old(packs) + s.generations[id].PackKeys() * s.packs.Keys
      ensures id !in s.generations ==> r == Err(NotFound)
      ensures r.Ok? ==>
                var m := s.generations[id];
                && packs == old(packs) + m.PackKeys() && m.PackKeys() <= s.packs.Keys + old(packs)
                && refs == old(refs) + m.refs
                && headRef == if m.headRef.Some? then m.headRef else old(headRef)
      ensures old(gaps) == gaps
      ensures failures == old(failures)
                          + if r.Ok? || id !in s.generations || !(s.generations[id].PackKeys() <= s.packs.Keys + old(packs)) then 0 else 1
      ensures r.Err? ==> headRef == old(headRef)
      ensures r.Err? && refs != old(refs) ==>
                && id in s.generations && s.generations[id].headRef.Some?
                && packs == old(packs) + s.generations[id].PackKeys() && refs == old(refs) + s.generations[id].refs
    {
      if id !in s.generations {
        return Err(NotFound);
      }
      var m := s.generations[id];
      var missing := m.PackKeys() - packs;
      if !(missing <= s.packs.Keys) {
        return Err(NotFound);
      }
      var failed := Fails();
      if failed {
        return Err(Unavailable);
      }
      var downloaded := Listed(missing);
      for i := 0 to |downloaded|
        invariant refs == old(refs) && headRef == old(headRef) && failures == old(failures) && gaps == old(gaps)
        invariant packs == old(packs) + (set k | k in downloaded[..i]) && packs <= old(packs) + missing
      {
        failed := Fails();
        if failed {
          return Err(Unavailable);
        }
        packs := packs + {downloaded[i]};
        assert downloaded[..i + 1] == downloaded[..i] + [downloaded[i]];
      }
      assert downloaded[..|downloaded|] == downloaded;
      if m.refs != map[] {
        failed := Fails();
        if failed {
          return Err(Unavailable);
        }
        refs := refs + m.refs;
      }
      if m.headRef.Some? {
        failed := Fails();
        if failed {
          return Err(Unavailable);
        }
        headRef := m.headRef;
      }
      return Ok(());
    }
  }
}
