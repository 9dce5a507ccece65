/**
  Making every object of an upload-pack request available: served from the
  cache repository, hydrated from a stored generation, or fetched upstream.
*/
module ReadThrough {
  import opened Wrappers
  import FetchPlan

  /** An object id determines the object, hence whether it is a commit; the code has to look it up. */
  datatype ObjectId = ObjectId(hash: nat, isCommit: bool)

  type GenerationId = nat

  datatype Error = NotFound | Internal | Unavailable

  datatype Counts = Counts(nonCommit: nat, served: nat, hydrated: nat, fetched: nat, fetchedNonCommit: nat) {
    function Sum(): nat {
      nonCommit + served + hydrated + fetched + fetchedNonCommit
    }
  }

  /**
    The plan for a request.  A plan that was asked to cover full history still
    does after extensions; one that was not may come to.
  */
  datatype Plan = Plan(
    forceRefetch: bool, extendsHistory: bool, hydrates: bool, depth: Option<nat>,
    askedFull: bool, fullHistory: bool, readThrough: bool)
  {
    predicate Sound() {
      (askedFull ==> fullHistory) && (!extendsHistory && fullHistory ==> askedFull)
    }
  }

  /**
    The plan for a request over a cache repository: what is asked for is fixed
    before the cache's history is extended, what is fetched only after.
  */
  function PlanFor(i: FetchPlan.Intent, c: FetchPlan.Cache, manifests: bool, readThrough: bool): (p: Plan)
    ensures p.Sound()
    ensures p.askedFull <==> !i.blobless && i.depth.None?
    ensures p.hydrates ==> !i.blobless
    ensures !c.shallow ==> !p.extendsHistory && p.depth == i.depth
    ensures c.shallow && i.depth.None? ==> p.extendsHistory
    ensures p.forceRefetch <==> FetchPlan.LacksObjects(i, c)
    ensures p.extendsHistory <==>
              || (c.shallow && i.depth.None?)
              || (FetchPlan.AsksForMore(i, c) && !(FetchPlan.Bounded(i, c) && c.boundarySatisfied))
    ensures !p.extendsHistory ==> p.depth == i.depth
    ensures p.hydrates <==> manifests && !i.blobless
    ensures p.readThrough == readThrough
  {
    var asked := FetchPlan.FromIntent(i);
    var (o, e) := FetchPlan.Plan(i, c);
    Plan(FetchPlan.ForcesRefetch(asked, c), !e.NoExtension?, manifests && o.hydrate, o.depth,
         asked.NeedsFullHistory(), o.NeedsFullHistory(), readThrough)
  }

  /** Whether the upstream is asked for objects that are here already. */
  function Refetches(p: Plan, stale: bool): bool {
    p.forceRefetch || (stale && !p.extendsHistory)
  }

  /** It is what the fetch options say. */
  lemma RefetchesAsPlanned(i: FetchPlan.Intent, c: FetchPlan.Cache, manifests: bool, readThrough: bool, stale: bool)
    ensures var (o, e) := FetchPlan.Plan(i, c);
            Refetches(PlanFor(i, c, manifests, readThrough), stale) == FetchPlan.ForBatch(o, e, stale).refetch
  {
  }

  /** What a successful upstream fetch asked for, or all heads. */
  datatype Fetch = Fetch(wants: Option<seq<ObjectId>>, refetch: bool)

  /** Some fetch asked for the want. */
  predicate AskedFor(fetches: seq<Fetch>, w: ObjectId) {
    exists f :: f in fetches && (f.wants.None? || w in f.wants.value)
  }

  /** Fetches of nothing but these wants, or of all heads after a failure. */
  ghost predicate AsPlanned(fetches: seq<Fetch>, refetch: bool, q: seq<ObjectId>, failed: bool) {
    forall f | f in fetches ::
      f.refetch == refetch && if f.wants.Some? then forall w | w in f.wants.value :: w in q else failed
  }

  ghost predicate AskedForAll(fetches: seq<Fetch>, q: seq<ObjectId>) {
    forall w | w in q :: AskedFor(fetches, w)
  }

  /** What a question about an object found wanting. */
  datatype Doubt = Unknown | NoTree | ShortWindow | Gap | Unmapped | Unready

  datatype No = No(doubt: Doubt, w: ObjectId)

  /**
    The answers that excuse asking the upstream for a want: its commit is here
    but lacks history, or it is not here and cannot be had from the store either.
  */
  predicate Excused(noes: seq<No>, hydrates: bool, w: ObjectId) {
    || No(ShortWindow, w) in noes
    || No(Gap, w) in noes
    || ((No(Unknown, w) in noes || No(NoTree, w) in noes) && (hydrates ==> No(Unmapped, w) in noes))
  }

  ghost predicate AllExcused(noes: seq<No>, hydrates: bool, q: seq<ObjectId>) {
    forall w | w in q :: Excused(noes, hydrates, w)
  }

  lemma ExcusedInTwo(start: seq<No>, before: seq<No>, noes: seq<No>, hydrates: bool, w: ObjectId)
    requires start <= before <= noes
    requires
      || No(ShortWindow, w) in noes[|before|..] || No(Gap, w) in noes[|before|..]
      || ((No(Unknown, w) in before[|start|..] || No(NoTree, w) in before[|start|..])
          && (hydrates ==> No(Unmapped, w) in noes[|before|..]))
    ensures Excused(noes[|start|..], hydrates, w)
  {
    assert noes[|start|..] == before[|start|..] + noes[|before|..];
  }

  lemma ExcusedMeansSaid(start: seq<No>, noes: seq<No>, hydrates: bool, wants: seq<ObjectId>)
    requires start <= noes
    ensures (exists w :: w in wants && Excused(noes[|start|..], hydrates, w)) ==> start < noes
  {
  }

  lemma ExcusedLater(start: seq<No>, first: seq<No>, later: seq<No>, hydrates: bool, q: seq<ObjectId>)
    requires start <= first <= later && AllExcused(first[|start|..], hydrates, q)
    ensures AllExcused(later[|start|..], hydrates, q)
  {
    assert first[|start|..] <= later[|start|..];
    assert forall n | n in first[|start|..] :: n in later[|start|..];
  }

  lemma OneMoreExcused(start: seq<No>, before: seq<No>, noes: seq<No>, hydrates: bool, q: seq<ObjectId>, w: ObjectId)
    requires start <= before <= noes && AllExcused(noes[|start|..], hydrates, q)
    ensures Excused(noes[|before|..], hydrates, w) ==>
              Excused(noes[|start|..], hydrates, w) && AllExcused(noes[|start|..], hydrates, q + [w])
  {
    assert noes[|start|..] == before[|start|..] + noes[|before|..];
  }

  /** What became of a want at first. */
  datatype Outcome = NonCommit | Served | Hydrated | Aside

  /** What walking the history of a suspect commit found, if it was walked. */
  datatype Walk = Unwalked | Whole | FoundGap

  /**
    What has been established: commits offered to clients, commits whose full
    history was walked, where hydrated ones came from, commits that are here with
    their tree, the depth windows proved present, and fetched commits proved ready.
  */
  datatype Facts = Facts(
    exposed: set<ObjectId>, verified: set<ObjectId>, origin: set<(ObjectId, GenerationId)>,
    trees: set<ObjectId>, windows: set<(ObjectId, nat)>, ready: set<ObjectId>)
  {
    ghost predicate Within(later: Facts) {
      && exposed <= later.exposed && verified <= later.verified && origin <= later.origin
      && trees <= later.trees && windows <= later.windows && ready <= later.ready
    }

    /** Some walked commit of the same generation speaks for each of these generations. */
    ghost predicate Vouching(trusted: set<GenerationId>) {
      forall g | g in trusted :: exists v :: v in verified && (v, g) in origin
    }

    /** The commit's history was walked, or that of another commit from the same generation. */
    ghost predicate Vouched(w: ObjectId) {
      w in verified || exists g, v :: (w, g) in origin && (v, g) in origin && v in verified
    }

    ghost predicate FromStore(w: ObjectId) {
      exists g :: (w, g) in origin
    }

    /** The commit is here with its tree, and with the history that a deeper request needs. */
    ghost predicate Present(w: ObjectId, depth: Option<nat>) {
      w in trees && (depth.Some? && depth.value > 1 ==> (w, depth.value) in windows)
    }

    /** Dealt with already: not a commit, or fit to serve, offered to the client and vouched for where that matters. */
    ghost predicate Settled(w: ObjectId, suspect: bool, depth: Option<nat>) {
      w.isCommit ==> w in exposed && (suspect ==> Vouched(w)) && (Present(w, depth) || FromStore(w))
    }

    ghost predicate AllSettled(wants: seq<ObjectId>, pending: seq<ObjectId>, suspect: bool, depth: Option<nat>) {
      forall w | w in wants :: w in pending || Settled(w, suspect, depth)
    }

    /** What a commit served in the end rests on. */
    ghost predicate Fit(w: ObjectId, depth: Option<nat>) {
      w in ready || Present(w, depth) || FromStore(w)
    }
  }

  const NO_FACTS: Facts := Facts({}, {}, {}, {}, {}, {})

  lemma StillSettled(f: Facts, f': Facts, wants: seq<ObjectId>, pending: seq<ObjectId>, suspect: bool, depth: Option<nat>)
    requires f.Within(f') && f.AllSettled(wants, pending, suspect, depth)
    ensures f'.AllSettled(wants, pending, suspect, depth)
  {
    forall w | w in wants && w !in pending
      ensures f'.Settled(w, suspect, depth)
    {
      assert f.Settled(w, suspect, depth);
      assert f.Vouched(w) ==> f'.Vouched(w);
    }
  }

  lemma VouchingLater(f: Facts, f': Facts, trusted: set<GenerationId>)
    requires f.Within(f')
    ensures f.Vouching(trusted) ==> f'.Vouching(trusted)
  {
  }

  lemma VouchedByWalk(f: Facts, w: ObjectId)
    ensures w in f.verified ==> f.Vouched(w)
  {
  }

  lemma NothingYet(f: Facts, wants: seq<ObjectId>, suspect: bool, depth: Option<nat>)
    ensures f.Vouching({}) && f.AllSettled(wants[..0], [], suspect, depth)
  {
  }

  lemma OneMoreSettled(f: Facts, wants: seq<ObjectId>, i: nat, pending: seq<ObjectId>, suspect: bool, depth: Option<nat>)
    requires i < |wants| && f.AllSettled(wants[..i], pending, suspect, depth)
    ensures f.AllSettled(wants[..i + 1], pending + [wants[i]], suspect, depth)
    ensures f.Settled(wants[i], suspect, depth) ==> f.AllSettled(wants[..i + 1], pending, suspect, depth)
  {
    assert wants[..i + 1] == wants[..i] + [wants[i]];
  }

  ghost predicate Commits(q: seq<ObjectId>, s: set<ObjectId>) {
    forall w | w in q && w.isCommit :: w in s
  }

  function CommitCount(q: seq<ObjectId>): nat {
    if q == [] then 0 else CommitCount(q[..|q| - 1]) + if q[|q| - 1].isCommit then 1 else 0
  }

  lemma CountNothing(q: seq<ObjectId>)
    ensures CommitCount(q[..0]) == CommitCount([]) == 0
  {
  }

  lemma CountOneMore(q: seq<ObjectId>, w: ObjectId)
    ensures CommitCount(q + [w]) == CommitCount(q) + if w.isCommit then 1 else 0
  {
    assert (q + [w])[..|q|] == q;
  }

  lemma CountNext(q: seq<ObjectId>, i: nat)
    requires i < |q|
    ensures CommitCount(q[..i + 1]) == CommitCount(q[..i]) + if q[i].isCommit then 1 else 0
  {
    assert q[..i + 1] == q[..i] + [q[i]];
    CountOneMore(q[..i], q[i]);
  }

  /** Every commit among these is either still missing, or fetched, proved ready and offered. */
  ghost predicate Handled(q: seq<ObjectId>, commits: seq<ObjectId>, missing: seq<ObjectId>, f: Facts) {
    forall w | w in q && w.isCommit :: w in missing || (w in commits && w in f.exposed && w in f.ready)
  }

  lemma NothingHandled(q: seq<ObjectId>, f: Facts)
    ensures Handled(q[..0], [], [], f)
  {
  }

  lemma OneMoreHandled(
    q: seq<ObjectId>, i: nat, commits: seq<ObjectId>, missing: seq<ObjectId>, f: Facts, f': Facts)
    requires i < |q| && f.Within(f') && Handled(q[..i], commits, missing, f)
    ensures Handled(q[..i + 1], commits, missing + [q[i]], f')
    ensures !q[i].isCommit ==> Handled(q[..i + 1], commits, missing, f')
    ensures q[i] in f'.exposed && q[i] in f'.ready ==> Handled(q[..i + 1], commits + [q[i]], missing, f')
  {
    assert q[..i + 1] == q[..i] + [q[i]];
  }

  lemma HandledTwice(
    q: seq<ObjectId>, commits: seq<ObjectId>, missing: seq<ObjectId>, more: seq<ObjectId>, f: Facts, f': Facts)
    requires f.Within(f') && Handled(q, commits, missing, f) && Handled(missing, more, [], f')
    ensures Handled(q, commits + more, [], f')
  {
  }

  lemma HandledLater(q: seq<ObjectId>, commits: seq<ObjectId>, f: Facts, f': Facts)
    requires f.Within(f') && Handled(q, commits, [], f)
    ensures Handled(q, commits, [], f')
  {
  }

  lemma HandledMeans(q: seq<ObjectId>, commits: seq<ObjectId>, f: Facts)
    requires Handled(q, commits, [], f)
    ensures Commits(q, f.exposed) && Commits(q, f.ready)
    ensures (forall w | w in commits :: w in f.verified) ==> Commits(q, f.verified)
  {
  }

  /** The wants that are advertised, or those that are not, in order. */
  function Chosen(q: seq<ObjectId>, advertised: set<ObjectId>, which: bool): (r: seq<ObjectId>)
    ensures forall w :: w in r <==> w in q && (w in advertised <==> which)
  {
    if q == [] then [] else (if (q[0] in advertised) == which then [q[0]] else []) + Chosen(q[1..], advertised, which)
  }

  lemma AskedForNothing(fetches: seq<Fetch>)
    ensures AskedForAll(fetches, [])
  {
  }

  lemma AskedMore(first: seq<Fetch>, more: seq<Fetch>, q: seq<ObjectId>)
    ensures AskedForAll(first, q) || AskedForAll(more, q) ==> AskedForAll(first + more, q)
  {
    forall w | w in q && (AskedFor(first, w) || AskedFor(more, w))
      ensures AskedFor(first + more, w)
    {
      var f :| (f in first || f in more) && (f.wants.None? || w in f.wants.value);
      assert f in first + more;
    }
  }

  lemma PartPlanned(fetches: seq<Fetch>, q: seq<ObjectId>, refetch: bool, pending: seq<ObjectId>, failed: bool)
    requires forall w | w in q :: w in pending
    requires fetches == [] || fetches == [Fetch(Some(q), refetch)] || (failed && fetches == [Fetch(None, refetch)])
    ensures AsPlanned(fetches, refetch, pending, failed)
  {
  }

  lemma PlannedMore(
    start: seq<Fetch>, before: seq<Fetch>, fetches: seq<Fetch>, refetch: bool, q: seq<ObjectId>, failed: bool, later: bool)
    requires start <= before <= fetches && (failed ==> later)
    requires AsPlanned(before[|start|..], refetch, q, failed) && AsPlanned(fetches[|before|..], refetch, q, later)
    ensures AsPlanned(fetches[|start|..], refetch, q, later)
  {
    assert fetches[|start|..] == before[|start|..] + fetches[|before|..];
  }

  lemma PlannedStill(fetches: seq<Fetch>, refetch: bool, q: seq<ObjectId>, failed: bool, later: bool)
    requires (failed ==> later) && AsPlanned(fetches, refetch, q, failed)
    ensures AsPlanned(fetches, refetch, q, later)
  {
  }

  lemma PlannedFor(fetches: seq<Fetch>, refetch: bool, q: seq<ObjectId>, more: seq<ObjectId>, failed: bool)
    requires (forall w | w in q :: w in more) && AsPlanned(fetches, refetch, q, failed)
    ensures AsPlanned(fetches, refetch, more, failed)
  {
  }

  lemma StillAsked(start: seq<Fetch>, first: seq<Fetch>, later: seq<Fetch>, q: seq<ObjectId>)
    requires start <= first <= later && AskedForAll(first[|start|..], q)
    ensures AskedForAll(later[|start|..], q)
  {
    AskedMore(first[|start|..], later[|first|..], q);
    assert later[|start|..] == first[|start|..] + later[|first|..];
  }

  lemma PartAsked(fetches: seq<Fetch>, q: seq<ObjectId>, refetch: bool, allHeads: bool)
    requires allHeads ==> Fetch(None, refetch) in fetches
    requires !allHeads && q != [] ==> Fetch(Some(q), refetch) in fetches
    ensures AskedForAll(fetches, q)
  {
    forall w | w in q
      ensures AskedFor(fetches, w)
    {
      var f := if allHeads then Fetch(None, refetch) else Fetch(Some(q), refetch);
      assert f in fetches && (f.wants.None? || w in f.wants.value);
    }
  }

  lemma AskedInParts(fetches: seq<Fetch>, q: seq<ObjectId>, advertised: set<ObjectId>)
    requires AskedForAll(fetches, Chosen(q, advertised, true)) && AskedForAll(fetches, Chosen(q, advertised, false))
    ensures AskedForAll(fetches, q)
  {
    forall w | w in q
      ensures AskedFor(fetches, w)
    {
      assert w in Chosen(q, advertised, true) || w in Chosen(q, advertised, false);
    }
  }

  lemma EverythingFit(f: Facts, wants: seq<ObjectId>, pending: seq<ObjectId>, suspect: bool, depth: Option<nat>)
    requires f.AllSettled(wants, pending, suspect, depth) && Commits(pending, f.ready) && Commits(pending, f.exposed)
    ensures Commits(wants, f.exposed)
    ensures forall w | w in wants && w.isCommit :: f.Fit(w, depth)
  {
    forall w | w in wants && w.isCommit
      ensures f.Fit(w, depth) && w in f.exposed
    {
      assert w in pending || f.Settled(w, suspect, depth);
    }
  }

  lemma EverythingVouched(f: Facts, wants: seq<ObjectId>, pending: seq<ObjectId>, depth: Option<nat>)
    requires f.AllSettled(wants, pending, true, depth) && Commits(pending, f.verified)
    ensures forall w | w in wants && w.isCommit :: f.Vouched(w)
  {
    forall w | w in wants && w.isCommit
      ensures f.Vouched(w)
    {
      assert w in pending || f.Settled(w, true, depth);
    }
  }

  /** What a batch of fetches for pending wants amounts to, want by want. */
  lemma FetchesMean(fetches: seq<Fetch>, refetch: bool, pending: seq<ObjectId>, failed: bool, wants: seq<ObjectId>)
    requires AsPlanned(fetches, refetch, pending, failed) && forall w | w in pending :: w in wants
    ensures forall f, w | f in fetches && f.wants.Some? && w in f.wants.value :: w in wants && w in pending
    ensures forall f | f in fetches :: f.refetch == refetch && (f.wants.None? ==> failed)
  {
  }

  class Cache {
    /** Whether some commit is suspected of lacking part of its history. */
    var closureMarker: bool
    ghost var facts: Facts
    /** Successful upstream fetches, failed commands and negative answers so far. */
    ghost var fetches: seq<Fetch>
    ghost var failures: nat
    ghost var noes: seq<No>

    constructor (closureMarker: bool)
      ensures this.closureMarker == closureMarker && facts == NO_FACTS && fetches == [] && failures == 0 && noes == []
    {
      this.closureMarker, facts, fetches, failures, noes := closureMarker, NO_FACTS, [], 0, [];
    }

    // ---------------------------------------------------------------- the repository

    method LookUpType(w: ObjectId) returns (isCommit: Option<bool>)
      modifies this`noes
      ensures isCommit.Some? ==> isCommit.value == w.isCommit
      ensures noes == old(noes) + if isCommit.Some? then [] else [No(Unknown, w)]
    {
      if * {
        noes := noes + [No(Unknown, w)];
        return None;
      }
      return Some(w.isCommit);
    }

    /** A command about an object that may fail, and otherwise answers yes or no. */
    method Query(doubt: Doubt, w: ObjectId) returns (r: Result<bool, Error>)
      modifies this`failures, this`noes
      ensures r.Err? ==> r == Err(Unavailable)
      ensures failures == old(failures) + if r.Err? then 1 else 0
      ensures noes == old(noes) + if r == Ok(false) then [No(doubt, w)] else []
    {
      if * {
        failures := failures + 1;
        return Err(Unavailable);
      }
      var answer: bool := *;
      if !answer {
        noes := noes + [No(doubt, w)];
      }
      return Ok(answer);
    }

    /** Whether a commit is here with its tree; a failing command counts as no. */
    method TreeExists(w: ObjectId) returns (here: bool)
      modifies this`facts, this`noes
      ensures facts == old(facts).(trees := old(facts).trees + if here then {w} else {})
      ensures noes == old(noes) + if here then [] else [No(NoTree, w)]
    {
      here := *;
      if here {
        facts := facts.(trees := facts.trees + {w});
      } else {
        noes := noes + [No(NoTree, w)];
      }
    }

    /** Whether the history down to a depth is here. */
    method WindowReady(w: ObjectId, depth: nat) returns (r: Result<bool, Error>)
      modifies this`facts, this`failures, this`noes
      ensures facts == old(facts).(windows := old(facts).windows + if r == Ok(true) then {(w, depth)} else {})
      ensures failures == old(failures) + if r.Err? then 1 else 0
      ensures noes == old(noes) + if r == Ok(false) then [No(ShortWindow, w)] else []
    {
      r := Query(ShortWindow, w);
      if r == Ok(true) {
        facts := facts.(windows := facts.windows + {(w, depth)});
      }
    }

    /** Walks the full history of a commit. */
    method HistoryComplete(w: ObjectId) returns (r: Result<bool, Error>)
      modifies this`facts, this`failures, this`noes
      ensures r.Err? ==> r == Err(Unavailable)
      ensures facts == old(facts).(verified := old(facts).verified + if r == Ok(true) then {w} else {})
      ensures failures == old(failures) + if r.Err? then 1 else 0
      ensures noes == old(noes) + if r == Ok(false) then [No(Gap, w)] else []
    {
      r := Query(Gap, w);
      if r == Ok(true) {
        facts := facts.(verified := facts.verified + {w});
      }
    }

    method Expose(w: ObjectId) returns (r: Result<(), Error>)
      modifies this`facts, this`failures
      ensures facts == old(facts).(exposed := old(facts).exposed + if r.Ok? then {w} else {})
      ensures failures == old(failures) + if r.Err? then 1 else 0
    {
      if * {
        failures := failures + 1;
        return Err(Unavailable);
      }
      facts := facts.(exposed := facts.exposed + {w});
      return Ok(());
    }

    /** The stored generation a commit is mapped to, if it could be brought in; only commits are mapped. */
    method Hydrate(w: ObjectId) returns (r: Result<Option<GenerationId>, Error>)
      modifies this`facts, this`failures, this`noes
      ensures r.Ok? && r.value.Some? ==> w.isCommit
      ensures r.Ok? && r.value.Some? ==> facts == old(facts).(origin := old(facts).origin + {(w, r.value.value)})
      ensures r.Err? || r.value.None? ==> facts == old(facts)
      ensures failures == old(failures) + if r.Err? then 1 else 0
      ensures noes == old(noes) + if r == Ok(None) then [No(Unmapped, w)] else []
    {
      if {
        case true =>
          failures := failures + 1;
          r := Err(Unavailable);
        case true =>
          noes := noes + [No(Unmapped, w)];
          r := Ok(None);
        case w.isCommit =>
          var g: nat := *;
          facts := facts.(origin := facts.origin + {(w, g)});
          r := Ok(Some(g));
      }
    }

    /** One upstream fetch, of some wants or of all heads. */
    method FetchUpstream(wants: Option<seq<ObjectId>>, refetch: bool) returns (ok: bool)
      modifies this`fetches, this`failures
      ensures fetches == old(fetches) + if ok then [Fetch(wants, refetch)] else []
      ensures failures == old(failures) + if ok then 0 else 1
    {
      if * {
        failures := failures + 1;
        return false;
      }
      fetches := fetches + [Fetch(wants, refetch)];
      return true;
    }

    /** After a fetch: a commit that is ready is offered; anything absent or incomplete is an error. */
    method Prepare(w: ObjectId) returns (r: Result<bool, Error>)
      modifies this`facts, this`failures, this`noes
      ensures r.Ok? ==> r.value == w.isCommit
      ensures old(facts).Within(facts)
      ensures facts == old(facts).(exposed := facts.exposed, ready := facts.ready)
      ensures r == Ok(true) ==> w in facts.exposed && w in facts.ready
      ensures old(failures) <= failures && old(noes) <= noes
      ensures r.Err? ==> failures > old(failures) || old(noes) < noes
    {
      var known := LookUpType(w);
      if known.None? {
        return Err(NotFound);
      }
      if !known.value {
        return Ok(false);
      }
      var ready := Query(Unready, w);
      if ready.Err? || !ready.value {
        return Err(NotFound);
      }
      facts := facts.(ready := facts.ready + {w});
      var done := Expose(w);
      if done.Err? {
        return Err(done.error);
      }
      // The hidden ref that keeps the commit.
      if * {
        failures := failures + 1;
        return Err(Unavailable);
      }
      return Ok(true);
    }

    // ------------------------------------------------------------------- the request

    /**
      Whether a commit that is already here can be served as the request wants
      it; if not, what is here is stale.
    */
    method ServeHot(plan: Plan, suspect: bool, w: ObjectId) returns (r: Result<bool, Error>, walk: Walk)
      requires w.isCommit && plan.Sound() && (suspect ==> plan.askedFull)
      requires w in facts.trees
      modifies this`facts, this`failures, this`noes
      ensures old(failures) <= failures && old(noes) <= noes
      ensures old(facts).Within(facts)
      ensures r == Ok(true) ==> w in facts.exposed && facts.Present(w, plan.depth) && (suspect && plan.fullHistory ==> w in facts.verified)
      ensures r == Ok(true) && plan.depth.Some? && plan.depth.value > 1 ==> (w, plan.depth.value) in facts.windows
      ensures No(ShortWindow, w) in noes[|old(noes)|..] ==> plan.depth.Some? && plan.depth.value > 1
      ensures walk != Unwalked ==> suspect && plan.fullHistory
      ensures r == Ok(true) && suspect && plan.fullHistory ==> walk == Whole
      ensures walk == FoundGap ==> r == Ok(false)
      ensures r.Err? ==> failures > old(failures)
      ensures r == Ok(false) ==> No(ShortWindow, w) in noes[|old(noes)|..] || No(Gap, w) in noes[|old(noes)|..]
    {
      walk := Unwalked;
      if plan.depth.Some? && plan.depth.value > 1 {
        var ready := WindowReady(w, plan.depth.value);
        if ready != Ok(true) {
          return ready, walk;
        }
      }
      if suspect && plan.fullHistory {
        var complete := HistoryComplete(w);
        if complete.Err? {
          return complete, walk;
        }
        walk := if complete.value then Whole else FoundGap;
        if !complete.value {
          return Ok(false), walk;
        }
      }
      var done := Expose(w);
      if done.Err? {
        return Err(done.error), walk;
      }
      return Ok(true), walk;
    }

    /** Whether a commit could be brought in from a stored generation; only the first of each generation is walked. */
    method ServeHydrated(plan: Plan, trusted: set<GenerationId>, w: ObjectId)
      returns (r: Result<bool, Error>, broken: bool, trusted': set<GenerationId>)
      requires plan.fullHistory ==> facts.Vouching(trusted)
      modifies this`closureMarker, this`facts, this`failures, this`noes
      ensures old(facts).Within(facts)
      ensures plan.fullHistory ==> facts.Vouching(trusted')
      ensures r == Ok(true) ==>
                w.isCommit && w in facts.exposed && facts.FromStore(w) && (plan.fullHistory ==> facts.Vouched(w))
      ensures r == Ok(true) ==> exists g ::
                && (w, g) in facts.origin && trusted' == trusted + {g}
                && (g in trusted || !plan.fullHistory ==> facts.verified == old(facts).verified)
      ensures broken ==> closureMarker && plan.fullHistory && r == Ok(false)
      ensures !broken ==> closureMarker == old(closureMarker)
      ensures old(failures) <= failures && old(noes) <= noes
      ensures r.Err? ==> failures > old(failures)
      ensures r == Ok(false) ==> No(if broken then Gap else Unmapped, w) in noes[|old(noes)|..]
    {
      broken, trusted' := false, trusted;
      var found := Hydrate(w);
      if found.Err? {
        return Err(found.error), broken, trusted';
      }
      if found.value.None? {
        return Ok(false), broken, trusted';
      }
      var g := found.value.value;
      if plan.fullHistory && g !in trusted {
        var complete := HistoryComplete(w);
        if complete.Err? {
          return complete, broken, trusted';
        }
        if !complete.value {
          closureMarker := true;
          return Ok(false), true, trusted';
        }
      }
      trusted' := trusted' + {g};
      var done := Expose(w);
      if done.Err? {
        return Err(done.error), broken, trusted';
      }
      return Ok(true), broken, trusted';
    }

    /**
      Deals with one want, or sets it aside.  Nothing is served from a repository
      that has to be refetched or extended first; otherwise a want is set aside
      only over a negative answer, and it is stale if its commit was here.
    */
    method Settle(plan: Plan, suspect: bool, w: ObjectId, trusted: set<GenerationId>)
      returns (r: Result<Outcome, Error>, trusted': set<GenerationId>, broken: bool, walk: Walk, stale: bool)
      requires plan.Sound() && (suspect ==> plan.askedFull) && (plan.fullHistory ==> facts.Vouching(trusted))
      modifies this`closureMarker, this`facts, this`failures, this`noes
      ensures old(failures) <= failures && old(noes) <= noes
      ensures old(facts).Within(facts)
      ensures plan.fullHistory ==> facts.Vouching(trusted')
      ensures r.Ok? && r.value != Aside ==> facts.Settled(w, suspect, plan.depth) && (w.isCommit <==> r.value != NonCommit)
      ensures r.Ok? && (plan.forceRefetch || plan.extendsHistory) ==> r.value in {NonCommit, Aside} && !stale
      ensures r.Ok? && r.value == Hydrated ==> plan.hydrates
      ensures r.Ok? && r.value == Aside && !plan.readThrough ==> w in facts.trees && stale
      ensures r.Ok? && r.value == Aside && !plan.forceRefetch && !plan.extendsHistory ==>
                Excused(noes[|old(noes)|..], plan.hydrates, w)
      ensures r.Err? && failures == old(failures) ==>
                && !plan.readThrough
                && (Excused(noes[|old(noes)|..], plan.hydrates, w) || plan.forceRefetch || plan.extendsHistory)
      ensures stale ==> r.Ok? ==> r.value == Aside
      ensures broken || walk == FoundGap ==> r.Ok? ==> stale
      ensures broken ==> closureMarker && plan.askedFull && (r.Ok? ==> r.value == Aside)
      ensures !broken ==> closureMarker == old(closureMarker)
      ensures walk != Unwalked ==> suspect
      ensures r == Ok(Served) && suspect ==> walk == Whole
      ensures walk != Unwalked ==> r.Ok? ==> r.value in {Served, Aside}
    {
      hide Facts.Vouching, Facts.Vouched, Excused;
      trusted', broken, walk, stale := trusted, false, Unwalked, false;
      var kind := LookUpType(w);
      if kind == Some(false) {
        return Ok(NonCommit), trusted', broken, walk, stale;
      }
      var here := false;
      if kind == Some(true) && !plan.forceRefetch && !plan.extendsHistory {
        here := TreeExists(w);
      }
      ghost var f, asked := facts, noes;
      assert kind.None? ==> No(Unknown, w) in asked[|old(noes)|..];
      assert kind.Some? && !here && !plan.forceRefetch && !plan.extendsHistory ==> No(NoTree, w) in asked[|old(noes)|..];
      VouchingLater(old(facts), f, trusted);
      var served;
      if here {
        served, walk := ServeHot(plan, suspect, w);
        VouchingLater(f, facts, trusted);
        if served.Err? {
          return Err(served.error), trusted', broken, walk, stale;
        }
        if served.value {
          VouchedByWalk(facts, w);
          return Ok(Served), trusted', broken, walk, stale;
        }
        stale := true;
      } else if !plan.forceRefetch && !plan.extendsHistory && plan.hydrates {
        served, broken, trusted' := ServeHydrated(plan, trusted, w);
        if served.Err? {
          return Err(served.error), trusted', broken, walk, stale;
        }
        if served.value {
          return Ok(Hydrated), trusted', broken, walk, stale;
        }
        stale := broken;
      }
      if !plan.forceRefetch && !plan.extendsHistory {
        ExcusedInTwo(old(noes), asked, noes, plan.hydrates, w);
      }
      if !here && !plan.readThrough {
        return Err(NotFound), trusted', broken, walk, stale;
      }
      return Ok(Aside), trusted', broken, walk, stale;
    }

    /** Goes through the wants in order, serving what can be served and setting the rest aside. */
    method Classify(plan: Plan, wants: seq<ObjectId>)
      returns (r: Result<Counts, Error>, pending: seq<ObjectId>, verify: bool, clear: bool, stale: bool)
      requires plan.Sound()
      modifies this`closureMarker, this`facts, this`failures, this`noes
      ensures old(failures) <= failures && old(noes) <= noes
      ensures old(facts).Within(facts)
      ensures r.Ok? ==> r.value.fetched == r.value.fetchedNonCommit == 0 && r.value.Sum() + |pending| == |wants|
      ensures r.Ok? ==> r.value.served + r.value.hydrated + CommitCount(pending) == CommitCount(wants)
      ensures r.Ok? ==> facts.AllSettled(wants, pending, plan.askedFull && old(closureMarker), plan.depth)
      ensures r.Ok? && (plan.forceRefetch || plan.extendsHistory) ==> r.value.served == r.value.hydrated == 0 && !stale
      ensures r.Ok? && (plan.forceRefetch || plan.extendsHistory) ==> forall w | w in wants && w.isCommit :: w in pending
      ensures r.Ok? && !plan.hydrates ==> r.value.hydrated == 0
      ensures r.Ok? && !plan.readThrough ==> forall w | w in pending :: w in facts.trees
      ensures r.Ok? && !plan.forceRefetch && !plan.extendsHistory ==>
                AllExcused(noes[|old(noes)|..], plan.hydrates, pending)
      ensures forall w | w in pending :: w in wants
      ensures r.Ok? && !plan.readThrough && pending != [] ==> stale
      ensures r.Err? && failures == old(failures) ==>
                && !plan.readThrough
                && (plan.forceRefetch || plan.extendsHistory
                    || exists w :: w in wants && Excused(noes[|old(noes)|..], plan.hydrates, w))
      ensures plan.askedFull && old(closureMarker) ==> verify
      ensures verify ==> plan.askedFull
      ensures r.Ok? && closureMarker != old(closureMarker) ==> closureMarker && verify && pending != [] && plan.fullHistory && stale
      ensures clear ==> plan.askedFull && old(closureMarker)
      ensures r.Ok? && pending == [] && plan.askedFull && old(closureMarker) ==> (clear <==> r.value.served > 0)
      ensures r.Err? && old(closureMarker) ==> closureMarker
      ensures r.Ok? && stale ==> pending != []
    {
      hide Facts.Settled, Facts.AllSettled, Facts.Vouching, Facts.Vouched, CommitCount, Excused;
      var suspect := plan.askedFull && closureMarker;
      var nonCommit, served, hydrated := 0, 0, 0;
      NothingYet(facts, wants, suspect, plan.depth);
      CountNothing(wants);
      var trusted: set<GenerationId> := {};
      var checked, complete := false, true;
      pending, verify, clear, stale := [], suspect, false, false;
      for i := 0 to |wants|
        invariant old(failures) <= failures && old(noes) <= noes
        invariant nonCommit + served + hydrated + |pending| == i
        invariant served + hydrated + CommitCount(pending) == CommitCount(wants[..i])
        invariant old(facts).Within(facts)
        invariant facts.AllSettled(wants[..i], pending, suspect, plan.depth)
        invariant plan.fullHistory ==> facts.Vouching(trusted)
        invariant (suspect ==> verify) && (verify ==> plan.askedFull)
        invariant closureMarker != old(closureMarker) ==> closureMarker && verify && pending != [] && plan.fullHistory && stale
        invariant checked ==> suspect
        invariant suspect && pending == [] ==> (checked <==> served > 0) && complete
        invariant plan.forceRefetch || plan.extendsHistory ==> served == hydrated == 0 && !stale
        invariant plan.forceRefetch || plan.extendsHistory ==> forall k | 0 <= k < i && wants[k].isCommit :: wants[k] in pending
        invariant !plan.hydrates ==> hydrated == 0
        invariant !plan.readThrough ==> (forall w | w in pending :: w in facts.trees) && (pending != [] ==> stale)
        invariant !plan.forceRefetch && !plan.extendsHistory ==> AllExcused(noes[|old(noes)|..], plan.hydrates, pending)
        invariant forall w | w in pending :: w in wants
        invariant stale ==> pending != []
      {
        ghost var before, saidSoFar := facts, noes;
        var outcome, broken, walk, outdated;
        outcome, trusted, broken, walk, outdated := Settle(plan, suspect, wants[i], trusted);
        StillSettled(before, facts, wants[..i], pending, suspect, plan.depth);
        OneMoreSettled(facts, wants, i, pending, suspect, plan.depth);
        CountNext(wants, i);
        CountOneMore(pending, wants[i]);
        if !plan.forceRefetch && !plan.extendsHistory {
          ExcusedLater(old(noes), saidSoFar, noes, plan.hydrates, pending);
          OneMoreExcused(old(noes), saidSoFar, noes, plan.hydrates, pending, wants[i]);
        }
        verify := verify || broken;
        checked := checked || walk != Unwalked;
        complete := complete && walk != FoundGap;
        stale := stale || outdated;
        if outcome.Err? {
          return Err(outcome.error), pending, verify, clear, stale;
        }
        match outcome.value {
          case NonCommit => nonCommit := nonCommit + 1;
          case Served => served := served + 1;
          case Hydrated => hydrated := hydrated + 1;
          case Aside => pending := pending + [wants[i]];
        }
      }
      assert wants[..|wants|] == wants;
      clear := checked && complete;
      return Ok(Counts(nonCommit, served, hydrated, 0, 0)), pending, verify, clear, stale;
    }

    /** Fetched commits, offered to clients; and what the fetch did not bring. */
    method PrepareAll(pending: seq<ObjectId>)
      returns (fetched: nat, nonCommits: nat, commits: seq<ObjectId>, missing: seq<ObjectId>)
      modifies this`facts, this`failures, this`noes
      ensures old(facts).Within(facts)
      ensures fetched + nonCommits + |missing| == |pending| && fetched + CommitCount(missing) == CommitCount(pending)
      ensures Handled(pending, commits, missing, facts)
      ensures old(failures) <= failures && old(noes) <= noes
      ensures missing != [] ==> failures > old(failures) || old(noes) < noes
      ensures forall w | w in missing :: w in pending
    {
      hide Handled, CommitCount;
      NothingHandled(pending, facts);
      CountNothing(pending);
      fetched, nonCommits, commits, missing := 0, 0, [], [];
      for i := 0 to |pending|
        invariant old(facts).Within(facts)
        invariant fetched + nonCommits + |missing| == i
        invariant fetched + CommitCount(missing) == CommitCount(pending[..i])
        invariant Handled(pending[..i], commits, missing, facts)
        invariant old(failures) <= failures && old(noes) <= noes
        invariant missing != [] ==> failures > old(failures) || old(noes) < noes
        invariant forall w | w in missing :: w in pending
      {
        ghost var before := facts;
        var kind := Prepare(pending[i]);
        OneMoreHandled(pending, i, commits, missing, before, facts);
        CountNext(pending, i);
        CountOneMore(missing, pending[i]);
        if kind.Err? {
          missing := missing + [pending[i]];
        } else if kind.value {
          fetched, commits := fetched + 1, commits + [pending[i]];
        } else {
          nonCommits := nonCommits + 1;
        }
      }
      assert pending[..|pending|] == pending;
    }

    /** The second attempt, which the first failure ends. */
    method PrepareAgain(missing: seq<ObjectId>)
      returns (r: Result<(), Error>, fetched: nat, nonCommits: nat, commits: seq<ObjectId>)
      modifies this`facts, this`failures, this`noes
      ensures old(facts).Within(facts)
      ensures r.Ok? ==> fetched + nonCommits == |missing| && fetched == CommitCount(missing)
      ensures r.Ok? ==> Handled(missing, commits, [], facts)
      ensures old(failures) <= failures && old(noes) <= noes
      ensures r.Err? ==> failures > old(failures) || old(noes) < noes
    {
      hide Handled, CommitCount;
      NothingHandled(missing, facts);
      CountNothing(missing);
      fetched, nonCommits, commits := 0, 0, [];
      for i := 0 to |missing|
        invariant old(facts).Within(facts)
        invariant fetched + nonCommits == i && fetched == CommitCount(missing[..i])
        invariant Handled(missing[..i], commits, [], facts)
        invariant old(failures) <= failures && old(noes) <= noes
      {
        ghost var before := facts;
        var kind := Prepare(missing[i]);
        OneMoreHandled(missing, i, commits, [], before, facts);
        CountNext(missing, i);
        if kind.Err? {
          return Err(NotFound), fetched, nonCommits, commits;
        }
        if kind.value {
          fetched, commits := fetched + 1, commits + [missing[i]];
        } else {
          nonCommits := nonCommits + 1;
        }
      }
      assert missing[..|missing|] == missing;
      return Ok(()), fetched, nonCommits, commits;
    }

    /** One fetch for some wants, if there are any, or else one of all heads if there was none yet. */
    method FetchPart(q: seq<ObjectId>, refetch: bool, allHeads: bool) returns (r: Result<bool, Error>)
      modifies this`fetches, this`failures
      ensures old(fetches) <= fetches && old(failures) <= failures
      ensures q == [] ==> r == Ok(allHeads) && fetches == old(fetches)
      ensures r.Ok? && failures == old(failures) && q != [] ==>
                r.value == allHeads && fetches[|old(fetches)|..] == [Fetch(Some(q), refetch)]
      ensures r.Ok? && failures > old(failures) ==> failures == old(failures) + 1
      ensures r.Ok? && failures > old(failures) ==>
                r.value && fetches[|old(fetches)|..] == if allHeads then [] else [Fetch(None, refetch)]
      ensures r.Err? ==> !allHeads && failures == old(failures) + 2 && fetches == old(fetches)
    {
      if q == [] {
        return Ok(allHeads);
      }
      var ok := FetchUpstream(Some(q), refetch);
      if ok || allHeads {
        return Ok(allHeads);
      }
      ok := FetchUpstream(None, refetch);
      if !ok {
        return Err(Unavailable);
      }
      return Ok(true);
    }

    /** One fetch for the advertised wants and one for the others; either falls back to all heads, once. */
    method BatchedFetch(pending: seq<ObjectId>, advertised: set<ObjectId>, refetch: bool) returns (r: Result<bool, Error>)
      modifies this`fetches, this`failures
      ensures old(fetches) <= fetches && old(failures) <= failures
      ensures AsPlanned(fetches[|old(fetches)|..], refetch, pending, failures > old(failures))
      ensures r.Ok? ==> AskedForAll(fetches[|old(fetches)|..], pending)
      ensures r.Ok? ==> (r.value <==> Fetch(None, refetch) in fetches[|old(fetches)|..])
      ensures r.Err? ==> failures > old(failures)
    {
      hide AskedFor, AskedForAll, AsPlanned;
      var named, raw := Chosen(pending, advertised, true), Chosen(pending, advertised, false);
      ghost var start := fetches;
      r := FetchPart(named, refetch, false);
      ghost var first, failed := fetches[|start|..], failures > old(failures);
      PartPlanned(first, named, refetch, pending, failed);
      if r.Err? {
        return r;
      }
      ghost var soFar := fetches;
      PartAsked(first, named, refetch, r.value);
      var allHeads := r.value;
      r := FetchPart(raw, refetch, allHeads);
      ghost var last := fetches[|soFar|..];
      PartPlanned(last, raw, refetch, pending, failures > old(failures));
      PlannedMore(start, soFar, fetches, refetch, pending, failed, failures > old(failures));
      if r.Err? {
        return r;
      }
      assert fetches[|start|..] == first + last;
      if allHeads {
        PartAsked(first, raw, refetch, true);
      } else {
        PartAsked(last, raw, refetch, r.value);
      }
      AskedMore(first, last, named);
      AskedMore(first, last, raw);
      AskedInParts(first + last, pending, advertised);
    }

    /** What the batch did not bring is asked for by name, or, unless that was done, with all heads. */
    method FetchMissing(missing: seq<ObjectId>, refetch: bool, allHeads: bool) returns (r: Result<(), Error>)
      modifies this`fetches, this`failures
      ensures old(fetches) <= fetches && old(failures) <= failures
      ensures AsPlanned(fetches[|old(fetches)|..], refetch, missing, failures > old(failures))
      ensures r.Ok? ==> AskedForAll(fetches[|old(fetches)|..], missing)
      ensures r.Ok? && failures > old(failures) ==> !allHeads && failures == old(failures) + 1
      ensures r.Err? ==> failures == old(failures) + if allHeads then 1 else 2
    {
      hide AskedFor, AskedForAll;
      ghost var start := fetches;
      var exact := FetchUpstream(Some(missing), refetch);
      if !exact {
        if allHeads {
          return Err(NotFound);
        }
        exact := FetchUpstream(None, refetch);
        if !exact {
          return Err(Unavailable);
        }
        PartAsked(fetches[|start|..], missing, refetch, true);
        return Ok(());
      }
      PartAsked(fetches[|start|..], missing, refetch, false);
      return Ok(());
    }

    /** Fetches what is still missing in one batch and retries the rest. */
    method FetchAndPrepare(pending: seq<ObjectId>, advertised: set<ObjectId>, refetch: bool)
      returns (r: Result<(), Error>, fetched: nat, nonCommits: nat, commits: seq<ObjectId>)
      modifies this`facts, this`fetches, this`failures, this`noes
      ensures old(facts).Within(facts)
      ensures r.Ok? ==> fetched + nonCommits == |pending| && fetched == CommitCount(pending)
      ensures r.Ok? ==> Handled(pending, commits, [], facts)
      ensures old(fetches) <= fetches && old(failures) <= failures && old(noes) <= noes
      ensures AsPlanned(fetches[|old(fetches)|..], refetch, pending, failures > old(failures))
      ensures r.Ok? ==> AskedForAll(fetches[|old(fetches)|..], pending)
      ensures r.Err? ==> failures > old(failures) || old(noes) < noes
    {
      hide CommitCount, Handled, AskedFor, AskedForAll, AsPlanned;
      ghost var start := fetches;
      fetched, nonCommits, commits := 0, 0, [];
      var batch := BatchedFetch(pending, advertised, refetch);
      if batch.Err? {
        return Err(batch.error), fetched, nonCommits, commits;
      }
      ghost var first, failed := fetches, failures > old(failures);
      var missing;
      fetched, nonCommits, commits, missing := PrepareAll(pending);
      PlannedStill(first[|start|..], refetch, pending, failed, failures > old(failures));
      CountNothing(missing);
      if missing == [] {
        return Ok(()), fetched, nonCommits, commits;
      }
      ghost var prepared, firstCommits := facts, commits;
      ghost var before := failures;
      var exact := FetchMissing(missing, refetch, batch.value);
      PlannedFor(fetches[|first|..], refetch, missing, pending, failures > before);
      PlannedMore(start, first, fetches, refetch, pending, failed, failures > old(failures));
      StillAsked(start, first, fetches, pending);
      if exact.Err? {
        return exact, fetched, nonCommits, commits;
      }
      var fetchedToo, nonCommitsToo, commitsToo;
      failed := failures > old(failures);
      r, fetchedToo, nonCommitsToo, commitsToo := PrepareAgain(missing);
      PlannedStill(fetches[|start|..], refetch, pending, failed, failures > old(failures));
      if r.Ok? {
        fetched, nonCommits, commits := fetched + fetchedToo, nonCommits + nonCommitsToo, commits + commitsToo;
        HandledTwice(pending, firstCommits, missing, commitsToo, prepared, facts);
      }
    }

    /** Fetches what is still missing and walks the histories that are in doubt. */
    method FetchPending(
      plan: Plan, pending: seq<ObjectId>, advertised: set<ObjectId>, stale: bool, verify: bool, removable: bool)
      returns (r: Result<Counts, Error>)
      modifies this
      ensures old(facts).Within(facts)
      ensures r.Ok? ==> r.value.Sum() == r.value.fetched + r.value.fetchedNonCommit == |pending|
      ensures r.Ok? ==> r.value.fetched == CommitCount(pending)
      ensures r.Ok? ==> Commits(pending, facts.exposed) && Commits(pending, facts.ready)
      ensures r.Ok? && verify && plan.fullHistory ==> Commits(pending, facts.verified) && (removable ==> !closureMarker)
      ensures r.Ok? && closureMarker ==> old(closureMarker)
      ensures !(verify && plan.fullHistory) ==> closureMarker == old(closureMarker)
      ensures r.Err? && old(closureMarker) ==> closureMarker
      ensures old(fetches) <= fetches && old(failures) <= failures && old(noes) <= noes
      ensures AsPlanned(fetches[|old(fetches)|..], Refetches(plan, stale), pending, failures > old(failures))
      ensures r.Ok? ==> AskedForAll(fetches[|old(fetches)|..], pending)
      ensures r.Err? ==> failures > old(failures) || old(noes) < noes
    {
      hide CommitCount, Handled, AskedForAll, AsPlanned;
      var refetch := Refetches(plan, stale);
      var done, fetched, nonCommits, commits := FetchAndPrepare(pending, advertised, refetch);
      if done.Err? {
        return Err(done.error);
      }
      ghost var offered, failed := facts, failures > old(failures);
      if verify && plan.fullHistory {
        var proven := VerifyAll(commits, removable);
        HandledLater(pending, commits, offered, facts);
        PlannedStill(fetches[|old(fetches)|..], refetch, pending, failed, failures > old(failures));
        if proven.Err? {
          return Err(proven.error);
        }
      }
      HandledMeans(pending, commits, facts);
      return Ok(Counts(0, 0, 0, fetched, nonCommits));
    }

    /** Clears the marker; a failure to do so goes unnoticed. */
    method RemoveMarker(removable: bool)
      modifies this`closureMarker
      ensures removable ==> !closureMarker
      ensures closureMarker ==> old(closureMarker)
    {
      if removable {
        closureMarker := false;
      } else if * {
        closureMarker := false;
      }
    }

    method VerifyAll(commits: seq<ObjectId>, removable: bool) returns (r: Result<(), Error>)
      modifies this`facts, this`closureMarker, this`failures, this`noes
      ensures old(facts).Within(facts)
      ensures r.Ok? ==> forall w | w in commits :: w in facts.verified
      ensures r.Ok? ==> (removable ==> !closureMarker) && (closureMarker ==> old(closureMarker))
      ensures r == Err(Internal) ==> closureMarker
      ensures r.Err? && old(closureMarker) ==> closureMarker
      ensures old(failures) <= failures && old(noes) <= noes
      ensures r.Err? ==> failures > old(failures) || (r == Err(Internal) && old(noes) < noes)
    {
      for i := 0 to |commits|
        invariant old(facts).Within(facts)
        invariant closureMarker == old(closureMarker)
        invariant forall k | 0 <= k < i :: commits[k] in facts.verified
        invariant old(failures) <= failures && old(noes) <= noes
      {
        var complete := HistoryComplete(commits[i]);
        if complete.Err? {
          return Err(complete.error);
        }
        if !complete.value {
          closureMarker := true;
          return Err(Internal);
        }
      }
      RemoveMarker(removable);
      return Ok(());
    }

    /** Serves what can be served and fetches the rest; what remains to be said is in EnsureWants. */
    method Provide(plan: Plan, wants: seq<ObjectId>, advertised: set<ObjectId>, removable: bool)
      returns (r: Result<Counts, Error>, clear: bool, pending: seq<ObjectId>)
      requires plan.Sound()
      modifies this
      ensures old(facts).Within(facts)
      ensures old(fetches) <= fetches && old(failures) <= failures && old(noes) <= noes
      ensures r.Ok? ==> r.value.Sum() == |wants|
      ensures r.Ok? ==> r.value.served + r.value.hydrated + r.value.fetched == CommitCount(wants)
      ensures r.Ok? ==> facts.AllSettled(wants, pending, plan.askedFull && old(closureMarker), plan.depth)
      ensures r.Ok? ==> Commits(pending, facts.exposed) && Commits(pending, facts.ready)
      ensures r.Ok? && plan.askedFull && old(closureMarker) ==> Commits(pending, facts.verified)
      ensures r.Ok? && !plan.hydrates ==> r.value.hydrated == 0
      ensures r.Ok? && (plan.forceRefetch || plan.extendsHistory) ==> r.value.served == r.value.hydrated == 0
      ensures r.Ok? && (plan.forceRefetch || plan.extendsHistory) ==> forall w | w in wants && w.isCommit :: w in pending
      // The marker.
      ensures clear ==> plan.askedFull && old(closureMarker)
      ensures r.Ok? && !plan.askedFull ==> closureMarker == old(closureMarker)
      ensures r.Ok? && pending == [] ==> closureMarker == old(closureMarker)
      ensures r.Ok? && pending == [] && plan.askedFull && old(closureMarker) ==> (clear <==> r.value.served > 0)
      ensures r.Ok? && pending != [] && plan.askedFull && removable && old(closureMarker) ==> !closureMarker
      ensures r.Ok? && removable && closureMarker ==> old(closureMarker)
      ensures r.Err? && old(closureMarker) ==> closureMarker
      // The upstream.
      ensures r.Ok? ==> AskedForAll(fetches[|old(fetches)|..], pending)
      ensures r.Ok? ==> r.value.fetched + r.value.fetchedNonCommit == |pending|
      ensures r.Ok? && pending == [] ==> fetches == old(fetches)
      ensures plan.forceRefetch ==> forall f | f in fetches[|old(fetches)|..] :: f.refetch
      ensures plan.extendsHistory && !plan.forceRefetch ==> forall f | f in fetches[|old(fetches)|..] :: !f.refetch
      ensures forall f, w | f in fetches[|old(fetches)|..] && f.wants.Some? && w in f.wants.value ::
                w in wants && (plan.forceRefetch || plan.extendsHistory || Excused(noes[|old(noes)|..], plan.hydrates, w))
      ensures forall f | f in fetches[|old(fetches)|..] && f.wants.None? :: failures > old(failures)
      ensures !plan.readThrough && (plan.forceRefetch || plan.extendsHistory) ==> fetches == old(fetches)
      ensures failures == old(failures) && noes == old(noes) ==>
                if plan.forceRefetch || plan.extendsHistory then plan.readThrough ==> r.Ok? else r.Ok? && pending == []
    {
      hide Facts.Vouched, Facts.Settled, Facts.AllSettled, Excused, AsPlanned, AskedFor, AskedForAll, CommitCount;
      CountNothing(wants);
      AskedForNothing(fetches[|old(fetches)|..]);
      var counts, verify, stale;
      counts, pending, verify, clear, stale := Classify(plan, wants);
      if counts.Err? {
        ExcusedMeansSaid(old(noes), noes, plan.hydrates, wants);
        return counts, clear, pending;
      }
      var total := counts.value;
      ghost var before, saidSoFar, failuresBefore := facts, noes, failures;
      if pending != [] {
        if !plan.forceRefetch && !plan.extendsHistory {
          assert Excused(noes[|old(noes)|..], plan.hydrates, pending[0]);
          ExcusedMeansSaid(old(noes), noes, plan.hydrates, wants);
        }
        var fetched := FetchPending(plan, pending, advertised, stale, verify, removable);
        FetchesMean(fetches[|old(fetches)|..], Refetches(plan, stale), pending, failures > failuresBefore, wants);
        if !plan.forceRefetch && !plan.extendsHistory {
          ExcusedLater(old(noes), saidSoFar, noes, plan.hydrates, pending);
        }
        if fetched.Err? {
          return fetched, clear, pending;
        }
        total := total.(fetched := fetched.value.fetched, fetchedNonCommit := fetched.value.fetchedNonCommit);
      }
      StillSettled(before, facts, wants, pending, plan.askedFull && old(closureMarker), plan.depth);
      return Ok(total), clear, pending;
    }

    /**
      On success every want is accounted for exactly once and every commit
      among them is fit to serve and offered to the client; in a repository under
      suspicion each of them has been vouched for; and success never leaves a
      suspicion behind that was not there before, unless the marker file cannot be
      removed.  A repository that has to be refetched or extended serves nothing
      by itself, and one that need not be asks the upstream only over something
      that is missing, incomplete or failing.
    */
    method EnsureWants(plan: Plan, wants: seq<ObjectId>, advertised: set<ObjectId>, removable: bool)
      returns (r: Result<Counts, Error>)
      requires plan.Sound()
      modifies this
      ensures r.Ok? ==> r.value.Sum() == |wants|
      ensures r.Ok? ==> r.value.served + r.value.hydrated + r.value.fetched == CommitCount(wants)
      ensures r.Ok? ==> Commits(wants, facts.exposed)
      ensures r.Ok? ==> forall w | w in wants && w.isCommit :: facts.Fit(w, plan.depth)
      ensures r.Ok? && plan.askedFull && old(closureMarker) ==> forall w | w in wants && w.isCommit :: facts.Vouched(w)
      ensures r.Ok? && removable && closureMarker ==> old(closureMarker)
      ensures r.Ok? && !plan.askedFull ==> closureMarker == old(closureMarker)
      ensures r.Ok? && plan.askedFull && old(closureMarker) && removable ==>
                (closureMarker <==> r.value.served + r.value.fetched + r.value.fetchedNonCommit == 0)
      ensures r.Err? && old(closureMarker) ==> closureMarker
      ensures r.Ok? && (plan.forceRefetch || plan.extendsHistory) ==> r.value.served == r.value.hydrated == 0
      ensures r.Ok? && !plan.hydrates ==> r.value.hydrated == 0
      ensures old(fetches) <= fetches && old(failures) <= failures && old(noes) <= noes
      ensures r.Ok? && r.value.fetched + r.value.fetchedNonCommit == 0 ==> fetches == old(fetches)
      ensures plan.forceRefetch ==> forall f | f in fetches[|old(fetches)|..] :: f.refetch
      ensures plan.extendsHistory && !plan.forceRefetch ==> forall f | f in fetches[|old(fetches)|..] :: !f.refetch
      ensures r.Ok? && (plan.forceRefetch || plan.extendsHistory) ==>
                forall w | w in wants && w.isCommit :: AskedFor(fetches[|old(fetches)|..], w)
      ensures forall f, w | f in fetches[|old(fetches)|..] && f.wants.Some? && w in f.wants.value ::
                w in wants && (plan.forceRefetch || plan.extendsHistory || Excused(noes[|old(noes)|..], plan.hydrates, w))
      ensures forall f | f in fetches[|old(fetches)|..] && f.wants.None? :: failures > old(failures)
      ensures failures == old(failures) && noes == old(noes) && !plan.forceRefetch && !plan.extendsHistory ==>
                r.Ok? && fetches == old(fetches) && r.value.fetched + r.value.fetchedNonCommit == 0
      ensures failures == old(failures) && noes == old(noes) && plan.readThrough ==> r.Ok?
      ensures !plan.readThrough && (plan.forceRefetch || plan.extendsHistory) ==> fetches == old(fetches)
      ensures old(facts).Within(facts)
    {
      hide Facts.Vouched, Facts.Settled, Facts.AllSettled, Facts.Fit, Excused, AskedFor, CommitCount;
      ghost var suspect := plan.askedFull && closureMarker;
      var clear, pending;
      r, clear, pending := Provide(plan, wants, advertised, removable);
      if r.Err? {
        return;
      }
      if clear {
        RemoveMarker(removable);
      }
      EverythingFit(facts, wants, pending, suspect, plan.depth);
      if suspect {
        EverythingVouched(facts, wants, pending, plan.depth);
      }
    }

    /** The same for any request over any cache repository: its plan is always a sound one. */
    method EnsureRequest(
      i: FetchPlan.Intent, c: FetchPlan.Cache, manifests: bool, readThrough: bool, wants: seq<ObjectId>,
      advertised: set<ObjectId>, removable: bool)
      returns (r: Result<Counts, Error>)
      modifies this
      ensures old(fetches) <= fetches && old(failures) <= failures && old(noes) <= noes
      ensures r.Ok? ==> r.value.Sum() == |wants|
      ensures r.Ok? ==> r.value.served + r.value.hydrated + r.value.fetched == CommitCount(wants)
      ensures r.Ok? ==> Commits(wants, facts.exposed)
      ensures r.Ok? && !FetchPlan.AsksForMore(i, c) ==> forall w | w in wants && w.isCommit :: facts.Fit(w, i.depth)
      ensures r.Ok? && !i.blobless && i.depth.None? && old(closureMarker) ==>
                forall w | w in wants && w.isCommit :: facts.Vouched(w)
      ensures r.Ok? && removable && closureMarker ==> old(closureMarker)
      // A full clone is never served from a shallow repository,
      ensures r.Ok? && c.shallow && i.depth.None? ==> r.value.served == r.value.hydrated == 0
      // nor whole objects from a partial one, except for complete snapshots, and then they are downloaded again;
      ensures r.Ok? && FetchPlan.LacksObjects(i, c) ==>
                r.value.served == r.value.hydrated == 0 && forall f | f in fetches[|old(fetches)|..] :: f.refetch
      // either way the upstream is asked for every commit.
      ensures r.Ok? && (FetchPlan.LacksObjects(i, c) || (c.shallow && i.depth.None?)) ==>
                forall w | w in wants && w.isCommit :: AskedFor(fetches[|old(fetches)|..], w)
      // A filtered request hydrates nothing,
      ensures r.Ok? && (i.blobless || !manifests) ==> r.value.hydrated == 0
      // a complete cache asks the upstream for nothing it can provide by itself,
      ensures !c.shallow && !c.partial ==>
                forall f, w | f in fetches[|old(fetches)|..] && f.wants.Some? && w in f.wants.value ::
                  w in wants && Excused(noes[|old(noes)|..], manifests && !i.blobless, w)
      // and where nothing fails and nothing is missing the request is met.
      ensures failures == old(failures) && noes == old(noes) && readThrough ==> r.Ok?
      ensures failures == old(failures) && noes == old(noes) && !c.shallow && !c.partial ==> r.Ok? && fetches == old(fetches)
    {
      hide Facts.Vouched, Facts.Fit, AskedFor, CommitCount, Excused;
      r := EnsureWants(PlanFor(i, c, manifests, readThrough), wants, advertised, removable);
    }
  }
}
