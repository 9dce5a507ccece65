/**
  How a read-through request becomes arguments for an upstream fetch: the
  client's intent and the state of the cache repository decide between a
  depth, a bounded deepening, an unshallowing and a plain fetch.
*/
module FetchPlan {
  import opened Wrappers

  const MAX_WINDOW: nat := 1024

  /** The largest 32-bit depth. */
  const U32_MAX: nat := 0xffff_ffff

  /** What the history-related lines of an upload-pack request amount to. */
  datatype Intent = Intent(
    blobless: bool, depth: Option<nat>, since: bool, excludesRefs: bool, clientShallow: bool)
  {
    /** The request parser refuses a depth of zero and one beyond 32 bits. */
    predicate Parsed() {
      depth.Some? ==> 0 < depth.value <= U32_MAX
    }

    predicate DeepensExisting() {
      clientShallow && (depth.Some? || since || excludesRefs)
    }
  }

  datatype Options = Options(
    blobless: bool, depth: Option<nat>, deepenExisting: bool, hydrate: bool,
    refetch: bool, unshallow: bool, deepen: Option<nat>)
  {
    /** Whole objects over the whole history. */
    predicate NeedsFullHistory() {
      !blobless && depth.None? && deepen.None?
    }

    function WithRefetch(): Options {
      this.(refetch := true)
    }

    function WithUnshallow(): Options {
      this.(depth := None, deepen := None, unshallow := true)
    }

    function WithBoundedDeepen(n: nat): Options {
      this.(depth := None, unshallow := false, deepen := Some(n))
    }
  }

  function FromIntent(i: Intent): Options {
    Options(i.blobless, i.depth, i.DeepensExisting(), !i.blobless, false, false, None)
  }

  /** What planning learns about the cache repository. */
  datatype Cache = Cache(partial: bool, snapshotsComplete: bool, shallow: bool, boundarySatisfied: bool)

  datatype Extension = NoExtension | Unshallow | Deepen(n: nat)

  predicate ForcesRefetch(o: Options, c: Cache) {
    !o.blobless && c.partial && !(o.depth == Some(1) && c.snapshotsComplete)
  }

  function ChosenExtension(o: Options, c: Cache, forced: bool): Extension {
    if !c.shallow then NoExtension
    else if o.depth.None? then Unshallow
    else if !o.deepenExisting then NoExtension
    else if o.depth.value <= MAX_WINDOW && !forced then
      if c.boundarySatisfied then NoExtension else Deepen(o.depth.value)
    else Unshallow
  }

  function Extended(o: Options, e: Extension): Options {
    match e
    case NoExtension => o
    case Unshallow => o.WithUnshallow()
    case Deepen(n) => o.WithBoundedDeepen(n)
  }

  /** The plan for a request, and whether it has to extend the cache's history. */
  function Plan(i: Intent, c: Cache): (Options, Extension) {
    var o := FromIntent(i);
    var forced := ForcesRefetch(o, c);
    var o' := if forced then o.WithRefetch() else o;
    var e := ChosenExtension(o', c, forced);
    (Extended(o', e), e)
  }

  /** A pending want that needs its objects again adds a refetch, unless history is being extended. */
  function ForBatch(o: Options, e: Extension, refetchPending: bool): Options {
    if refetchPending && e.NoExtension? then o.WithRefetch() else o
  }

  /** Drops what Git would misapply when the repository is no longer shallow. */
  function AtRepo(o: Options, shallowNow: bool): Options {
    if shallowNow then o else o.(unshallow := false, deepen := None)
  }

  // -------------------------------------------------------------------- arguments

  datatype Arg = ClearSavedFilter | Depth(n: nat) | DeepenBy(n: nat) | FilterBlobs | Refetch | UnshallowAll

  datatype Error = ZeroDepth | Combined

  /** Pushes the arguments one by one, refusing combinations Git would refuse. */
  method FetchArgs(o: Options) returns (r: Result<seq<Arg>, Error>)
    ensures r.Ok? <==> Acceptable(o)
    ensures r.Ok? ==> forall a :: a in r.value <==> Asked(o, a)
    ensures r.Ok? ==> forall i, j | 0 <= i < j < |r.value| :: r.value[i] != r.value[j]
  {
    var args: seq<Arg> := [];
    if !o.blobless {
      args := args + [ClearSavedFilter];
    }
    if o.depth.Some? {
      if o.depth.value == 0 {
        return Err(ZeroDepth);
      }
      args := args + [Depth(o.depth.value)];
    }
    if o.deepen.Some? {
      if o.depth.Some? {
        return Err(Combined);
      }
      if o.deepen.value == 0 {
        return Err(ZeroDepth);
      }
      args := args + [DeepenBy(o.deepen.value)];
    }
    if o.blobless {
      args := args + [FilterBlobs];
    }
    if o.refetch {
      args := args + [Refetch];
    }
    if o.unshallow {
      if o.depth.Some? || o.deepen.Some? {
        return Err(Combined);
      }
      args := args + [UnshallowAll];
    }
    return Ok(args);
  }

  predicate Asked(o: Options, a: Arg) {
    match a
    case ClearSavedFilter => !o.blobless
    case Depth(n) => o.depth == Some(n)
    case DeepenBy(n) => o.deepen == Some(n)
    case FilterBlobs => o.blobless
    case Refetch => o.refetch
    case UnshallowAll => o.unshallow
  }

  /** At most one way of choosing history, and never by zero commits. */
  predicate Acceptable(o: Options) {
    && o.depth != Some(0) && o.deepen != Some(0)
    && !(o.depth.Some? && o.deepen.Some?)
    && !(o.unshallow && (o.depth.Some? || o.deepen.Some?))
  }

  /** A request for whole objects over a cache that lacks some, unless it holds the one snapshot asked for. */
  predicate LacksObjects(i: Intent, c: Cache) {
    c.partial && !i.blobless && !(i.depth == Some(1) && c.snapshotsComplete)
  }

  /** A shallow client asks for more of a shallow cache. */
  predicate AsksForMore(i: Intent, c: Cache) {
    c.shallow && i.clientShallow && i.depth.Some?
  }

  /** More that the cache can be given, or has, by moving its boundary. */
  predicate Bounded(i: Intent, c: Cache) {
    i.depth.Some? && i.depth.value <= MAX_WINDOW && !LacksObjects(i, c)
  }

  /**
    What one upstream fetch is asked for, given the request, the cache as it
    was when the plan was made, whether a want turned out to need its objects
    again, and whether the repository is still shallow when the fetch runs.
    The arguments are always accepted, and what they do to the cache's history
    follows from the request and the boundary alone.
  */
  function FetchFor(i: Intent, c: Cache, refetchPending: bool, shallowNow: bool): (f: Options)
    requires i.Parsed()
    ensures Acceptable(f)
    // A full-history request never leaves the boundary of a shallow cache in place;
    ensures i.depth.None? ==> f.depth.None? && f.deepen.None? && (f.unshallow <==> c.shallow && shallowNow)
    // nobody's history is limited on behalf of a request without a depth;
    ensures f.depth.Some? || f.deepen.Some? ==> i.depth.Some? && (f.depth == i.depth || f.deepen == i.depth)
    // a complete repository is neither unshallowed nor deepened;
    ensures !shallowNow ==> !f.unshallow && f.deepen.None?
    // a request with a depth leaves history alone unless a shallow client asks for more of a shallow cache,
    ensures i.depth.Some? && !AsksForMore(i, c) ==> f.depth == i.depth && !f.unshallow && f.deepen.None?
    // and then also if the boundary reaches far enough already;
    ensures AsksForMore(i, c) && Bounded(i, c) && c.boundarySatisfied ==> f.depth == i.depth && !f.unshallow && f.deepen.None?
    // if it does not, the boundary is moved by that depth,
    ensures AsksForMore(i, c) && Bounded(i, c) && !c.boundarySatisfied ==>
              f.depth.None? && !f.unshallow && f.deepen == if shallowNow then i.depth else None
    // and the whole history is fetched where the boundary cannot be moved;
    ensures AsksForMore(i, c) && !Bounded(i, c) ==> f.depth.None? && f.deepen.None? && (f.unshallow <==> shallowNow)
    // full objects are downloaded again from a partial cache, except for complete snapshots,
    ensures LacksObjects(i, c) ==> f.refetch && f.deepen.None?
    // and otherwise only for a want that needs it while history is left alone;
    ensures !LacksObjects(i, c) ==>
              (f.refetch <==> refetchPending && !(c.shallow && i.depth.None?)
                              && (AsksForMore(i, c) ==> Bounded(i, c) && c.boundarySatisfied))
    // and blobs are left out exactly when the client wants none.
    ensures f.blobless == i.blobless
  {
    var (o, e) := Plan(i, c);
    AtRepo(ForBatch(o, e, refetchPending), shallowNow)
  }
}
