/**
  The local disk cache: space reservations against a quota, eviction of the
  least recently used repositories, reference-counted locks, and access times
  that are buffered in memory before they reach the persistent index.
*/
module DiskManager {
  import opened Wrappers

  /** Repository paths, named by their rank in path order. */
  type Path = nat

  type Millis = nat

  const U64_MAX: nat := 0xffff_ffff_ffff_ffff

  function SatAdd(a: nat, b: nat): nat {
    if a + b <= U64_MAX then a + b else U64_MAX
  }

  function SatSub(a: nat, b: nat): nat {
    if a <= b then 0 else a - b
  }

  function Max(a: nat, b: nat): nat {
    if a < b then b else a
  }

  // ---------------------------------------------------------------------- sums

  ghost function Total(m: map<nat, nat>): nat {
    if m == map[] then 0
    else
      var k :| k in m;
      m[k] + Total(m - {k})
  }

  lemma {:induction false} TotalWithout(m: map<nat, nat>, k: nat)
    requires k in m
    ensures Total(m) == m[k] + Total(m - {k})
    decreases |m|
  {
    var j :| j in m && Total(m) == m[j] + Total(m - {j});
    if j != k {
      TotalWithout(m - {j}, k);
      TotalWithout(m - {k}, j);
      assert m - {j} - {k} == m - {k} - {j};
    }
  }

  /** Adds up a table entry by entry, stopping at the largest 64-bit value. */
  method SumUp(m: map<nat, nat>) returns (total: nat)
    ensures total == if Total(m) <= U64_MAX then Total(m) else U64_MAX
  {
    total := 0;
    var rest := m;
    ghost var exact := 0;
    while rest != map[]
      invariant exact + Total(rest) == Total(m)
      invariant total == if exact <= U64_MAX then exact else U64_MAX
      decreases |rest|
    {
      var k :| k in rest;
      TotalWithout(rest, k);
      exact := exact + rest[k];
      total := SatAdd(total, rest[k]);
      rest := rest - {k};
    }
  }

  // ------------------------------------------------------------- index and order

  datatype Entry = Entry(size: nat, lastAccess: Millis, protected: bool)

  type Index = map<Path, Entry>

  predicate Evictable(index: Index, locks: map<Path, nat>, p: Path) {
    p in index && !index[p].protected && p !in locks
  }

  /** Less recently used; ties go to the earlier path. */
  predicate Before(index: Index, p: Path, q: Path)
    requires p in index && q in index
  {
    index[p].lastAccess < index[q].lastAccess || (index[p].lastAccess == index[q].lastAccess && p < q)
  }

  ghost predicate IsVictim(index: Index, locks: map<Path, nat>, v: Path) {
    Evictable(index, locks, v) && forall q | Evictable(index, locks, q) && q != v :: Before(index, v, q)
  }

  /** The least recently used repository that is neither protected nor locked. */
  method LruEvictable(index: Index, locks: map<Path, nat>) returns (v: Option<Path>)
    ensures v.Some? ==> IsVictim(index, locks, v.value)
    ensures v.None? ==> forall q :: !Evictable(index, locks, q)
  {
    v := None;
    var rest := index.Keys;
    while rest != {}
      invariant rest <= index.Keys
      invariant v.Some? ==> v.value in index && v.value !in rest && Evictable(index, locks, v.value)
      invariant forall q | Evictable(index, locks, q) && q !in rest ::
                  v.Some? && (q == v.value || Before(index, v.value, q))
      decreases |rest|
    {
      var p :| p in rest;
      rest := rest - {p};
      if !index[p].protected && p !in locks && (v.None? || Before(index, p, v.value)) {
        v := Some(p);
      }
    }
  }

  /** The index brought in line with the directories that exist; unknown ones count as accessed now. */
  function Synced(index: Index, dirs: map<Path, nat>, now: Millis): Index {
    map p | p in dirs ::
      Entry(dirs[p], if p in index then index[p].lastAccess else now, p in index && index[p].protected)
  }

  /** The index with the buffered access times taken into account. */
  function WithPending(index: Index, pending: map<Path, Millis>): Index {
    map p | p in index ::
      if p in pending then index[p].(lastAccess := Max(index[p].lastAccess, pending[p])) else index[p]
  }

  /** The index after a flush: indexed paths take the later time, existing unknown ones are added, the rest is dropped. */
  function Flushed(index: Index, dirs: map<Path, nat>, pending: map<Path, Millis>): Index {
    WithPending(index, pending)
    + map p | p in pending && p !in index && p in dirs :: Entry(dirs[p], pending[p], false)
  }

  // --------------------------------------------------------------------- recency

  /** The recency of an indexed repository: its index time or a later buffered one. */
  function RecencyOf(index: Index, pending: map<Path, Millis>, p: Path): Millis
    requires p in index
  {
    if p in pending then Max(index[p].lastAccess, pending[p]) else index[p].lastAccess
  }

  /** Index and buffer together know the latest recorded access of every indexed repository. */
  predicate Agrees(index: Index, pending: map<Path, Millis>, latest: map<Path, Millis>, now: Millis) {
    && (forall p | p in index :: p in latest && RecencyOf(index, pending, p) == latest[p])
    && (forall p | p in pending :: p in latest && pending[p] <= latest[p])
    && (forall p | p in latest :: latest[p] <= now)
  }

  /**
    A flush keeps the index in agreement exactly when no unindexed directory has
    a buffered time older than its latest access.
  */
  lemma FlushRecency(index: Index, dirs: map<Path, nat>, pending: map<Path, Millis>, latest: map<Path, Millis>, now: Millis)
    requires Agrees(index, pending, latest, now)
    ensures Agrees(Flushed(index, dirs, pending), map[], latest, now)
            <==> forall p | p in pending && p !in index && p in dirs :: pending[p] == latest[p]
    ensures forall p | p in index :: p in Flushed(index, dirs, pending) && Flushed(index, dirs, pending)[p].lastAccess == latest[p]
  {
    var flushed := Flushed(index, dirs, pending);
    forall p | p in pending && p !in index && p in dirs
      ensures p in flushed && RecencyOf(flushed, map[], p) == pending[p]
    {
    }
  }

  /** Protection, as eviction sees it. */
  predicate Protected(index: Index, p: Path) {
    p in index && index[p].protected
  }

  /** The index that eviction works on: in line with the directories, buffered times taken into account. */
  function EvictionView(index: Index, pending: map<Path, Millis>, dirs: map<Path, nat>, now: Millis): Index {
    WithPending(Synced(index, dirs, now), pending)
  }

  /**
    The recency that eviction uses for a directory is its latest recorded access
    exactly when the directory is indexed, or was last accessed this very moment:
    one that is not indexed counts as accessed now.
  */
  lemma EvictionRecency(
    index: Index, pending: map<Path, Millis>, dirs: map<Path, nat>, latest: map<Path, Millis>, now: Millis, p: Path)
    requires Agrees(index, pending, latest, now) && p in dirs
    ensures p in EvictionView(index, pending, dirs, now)
    ensures (p in latest && EvictionView(index, pending, dirs, now)[p].lastAccess == latest[p])
            <==> p in index || (p in latest && latest[p] == now)
  {
    assert p in index ==> RecencyOf(index, pending, p) == latest[p];
  }


  /** Eviction sees every directory, nothing else, and the protection that the index records. */
  lemma EvictionSees(index: Index, pending: map<Path, Millis>, dirs: map<Path, nat>, now: Millis)
    ensures var view := EvictionView(index, pending, dirs, now);
            view.Keys == dirs.Keys && forall p | p in dirs :: Protected(view, p) == Protected(index, p) && view[p].size == dirs[p]
  {
    var view := EvictionView(index, pending, dirs, now);
    assert view.Keys == dirs.Keys;
  }

  /** Nothing locked or protected is evicted, and nothing that is not there. */
  lemma EvictedMayGo(
    index: Index, pending: map<Path, Millis>, locks: map<Path, nat>, dirs: map<Path, nat>, other: nat,
    reserved: nat, bytes: nat, usable: nat, now: Millis, evicted: seq<Path>)
    requires EvictionRun(EvictionView(index, pending, dirs, now), locks, dirs, other, reserved, bytes, usable, evicted)
    ensures forall p | p in evicted :: p in dirs && p !in locks && !Protected(index, p)
  {
    hide EvictionRun, EvictionView;
    EvictionSees(index, pending, dirs, now);
    EvictedArePrefix(EvictionView(index, pending, dirs, now), locks, dirs, other, reserved, bytes, usable, evicted);
  }

  /**
    Two managers that agree on directories, protection and recorded accesses see
    the same index, however the accesses are spread over index and buffer,
    exactly when each directory is indexed by both or by neither, or was last
    accessed this very moment.
  */
  lemma EvictionIgnoresFlushTiming(
    index: Index, pending: map<Path, Millis>, index': Index, pending': map<Path, Millis>,
    dirs: map<Path, nat>, latest: map<Path, Millis>, now: Millis)
    requires Agrees(index, pending, latest, now) && Agrees(index', pending', latest, now)
    requires forall p | p in dirs :: Protected(index, p) == Protected(index', p)
    ensures EvictionView(index, pending, dirs, now) == EvictionView(index', pending', dirs, now)
            <==> forall p | p in dirs :: (p in index <==> p in index') || latest[p] == now
  {
    var e, e' := EvictionView(index, pending, dirs, now), EvictionView(index', pending', dirs, now);
    forall p | p in dirs
      ensures e[p] == e'[p] <==> (p in index <==> p in index') || latest[p] == now
    {
      assert p in index ==> RecencyOf(index, pending, p) == latest[p];
      assert p in index' ==> RecencyOf(index', pending', p) == latest[p];
    }
    assert e == e' <==> forall p | p in dirs :: e[p] == e'[p];
  }

  /**
    Whether a flush comes before or after makes no difference to what eviction
    sees exactly when every unindexed directory with a buffered time was noted
    this very moment: the flush gives it that time, eviction gives it the present.
  */
  lemma FlushTiming(index: Index, pending: map<Path, Millis>, dirs: map<Path, nat>, now: Millis)
    requires forall p | p in pending :: pending[p] <= now
    ensures EvictionView(Flushed(index, dirs, pending), map[], dirs, now) == EvictionView(index, pending, dirs, now)
            <==> forall p | p in pending && p !in index && p in dirs :: pending[p] == now
  {
    var flushed := Flushed(index, dirs, pending);
    var e, e' := EvictionView(index, pending, dirs, now), EvictionView(flushed, map[], dirs, now);
    assert e.Keys == dirs.Keys == e'.Keys;
    forall p | p in dirs
      ensures e[p] == e'[p] <==> p in index || p !in pending || pending[p] == now
    {
    }
    assert e == e' <==> forall p | p in dirs :: e[p] == e'[p];
  }

  /** The buffered paths that a flush finds indexed or takes up. */
  function Applied(index: Index, dirs: map<Path, nat>, pending: map<Path, Millis>): set<Path> {
    set p | p in pending && (p in index || p in dirs)
  }

  lemma FlushOneMore(index: Index, dirs: map<Path, nat>, done: map<Path, Millis>, p: Path, t: Millis)
    requires p !in done
    ensures var flushed := Flushed(index, dirs, done);
            Flushed(index, dirs, done[p := t])
            == if p in flushed then flushed[p := flushed[p].(lastAccess := Max(flushed[p].lastAccess, t))]
               else if p in dirs then flushed[p := Entry(dirs[p], t, false)]
               else flushed
  {
  }

  lemma ApplyOneMore(index: Index, dirs: map<Path, nat>, done: map<Path, Millis>, p: Path, t: Millis)
    requires p !in done
    ensures |Applied(index, dirs, done[p := t])| == |Applied(index, dirs, done)| + if p in index || p in dirs then 1 else 0
    ensures p in Flushed(index, dirs, done) <==> p in index
  {
    assert Applied(index, dirs, done[p := t]) == Applied(index, dirs, done) + if p in index || p in dirs then {p} else {};
  }

  lemma FlushNone(index: Index, dirs: map<Path, nat>)
    ensures Flushed(index, dirs, map[]) == index && Applied(index, dirs, map[]) == {}
  {
  }

  // ---------------------------------------------------------------- space and fit

  /** Whether a request fits, computed the way the program does, saturating at 64 bits. */
  ghost predicate Fits(used: nat, reserved: nat, bytes: nat, usable: nat) {
    SatAdd(SatAdd(if used <= U64_MAX then used else U64_MAX, reserved), bytes) <= usable
  }

  /** Saturation only ever lies when everything addressable is usable. */
  lemma FitsIsExact(used: nat, reserved: nat, bytes: nat, usable: nat)
    requires usable <= U64_MAX
    ensures Fits(used, reserved, bytes, usable) <==> used + reserved + bytes <= usable || usable == U64_MAX
  {
  }

  /** A run of evictions: each takes the victim of what is left, and only while the request does not fit. */
  ghost predicate EvictionRun(
    index: Index, locks: map<Path, nat>, dirs: map<Path, nat>, other: nat,
    reserved: nat, bytes: nat, usable: nat, evicted: seq<Path>)
    decreases |evicted|
  {
    |evicted| > 0 ==>
      && !Fits(Total(dirs) + other, reserved, bytes, usable)
      && IsVictim(index, locks, evicted[0])
      && EvictionRun(index - {evicted[0]}, locks, dirs - {evicted[0]}, other, reserved, bytes, usable, evicted[1..])
  }

  function AsSet(q: seq<Path>): set<Path> {
    set p | p in q
  }

  /** Evicting was over: the request fits, or nothing evictable is left. */
  ghost predicate Stopped(
    index: Index, locks: map<Path, nat>, dirs: map<Path, nat>, other: nat,
    reserved: nat, bytes: nat, usable: nat, evicted: seq<Path>)
  {
    || Fits(Total(dirs - AsSet(evicted)) + other, reserved, bytes, usable)
    || forall q | Evictable(index, locks, q) :: q in evicted
  }

  /**
    The evicted repositories are a prefix of the evictable ones in order of
    recency: none protected or locked, each before the next, and all before
    every evictable one that was spared.
  */
  lemma {:induction false} EvictedArePrefix(
    index: Index, locks: map<Path, nat>, dirs: map<Path, nat>, other: nat,
    reserved: nat, bytes: nat, usable: nat, evicted: seq<Path>)
    requires EvictionRun(index, locks, dirs, other, reserved, bytes, usable, evicted)
    ensures forall i | 0 <= i < |evicted| :: Evictable(index, locks, evicted[i])
    ensures forall i, j | 0 <= i < j < |evicted| :: Before(index, evicted[i], evicted[j])
    ensures forall i, q | 0 <= i < |evicted| && Evictable(index, locks, q) && q !in evicted :: Before(index, evicted[i], q)
    decreases |evicted|
  {
    if |evicted| > 0 {
      var v := evicted[0];
      var rest := index - {v};
      EvictedArePrefix(rest, locks, dirs - {v}, other, reserved, bytes, usable, evicted[1..]);
      assert forall q | Evictable(index, locks, q) && q != v :: Evictable(rest, locks, q);
      forall i | 0 <= i < |evicted|
        ensures Evictable(index, locks, evicted[i])
      {
        assert i > 0 ==> evicted[i] == evicted[1..][i - 1];
      }
      forall i, q | 0 <= i < |evicted| && Evictable(index, locks, q) && q !in evicted
        ensures Before(index, evicted[i], q)
      {
        assert i > 0 ==> evicted[i] == evicted[1..][i - 1];
        assert Evictable(rest, locks, q) && q !in evicted[1..];
      }
      forall i, j | 0 <= i < j < |evicted|
        ensures Before(index, evicted[i], evicted[j])
      {
        assert evicted[j] == evicted[1..][j - 1];
        if i > 0 {
          assert evicted[i] == evicted[1..][i - 1];
        }
      }
    }
  }

  /** No run evicts a repository that is locked or protected. */
  lemma LockedAreSpared(
    index: Index, locks: map<Path, nat>, dirs: map<Path, nat>, other: nat,
    reserved: nat, bytes: nat, usable: nat, evicted: seq<Path>, p: Path)
    requires EvictionRun(index, locks, dirs, other, reserved, bytes, usable, evicted)
    ensures p in locks || (p in index && index[p].protected) ==> p !in evicted
  {
    EvictedArePrefix(index, locks, dirs, other, reserved, bytes, usable, evicted);
  }

  lemma MinusTwice<T>(m: map<Path, T>, a: set<Path>, b: set<Path>)
    ensures m - a - b == m - (a + b)
  {
  }

  lemma AsSetSplit(q: seq<Path>, r: seq<Path>)
    ensures AsSet(q + r) == AsSet(q) + AsSet(r)
  {
  }

  /** One more eviction at the end of a run. */
  lemma {:induction false} RunOneMore(
    index: Index, locks: map<Path, nat>, dirs: map<Path, nat>, other: nat,
    reserved: nat, bytes: nat, usable: nat, evicted: seq<Path>, v: Path)
    requires EvictionRun(index, locks, dirs, other, reserved, bytes, usable, evicted)
    requires IsVictim(index - AsSet(evicted), locks, v)
    requires !Fits(Total(dirs - AsSet(evicted)) + other, reserved, bytes, usable)
    ensures EvictionRun(index, locks, dirs, other, reserved, bytes, usable, evicted + [v])
    decreases |evicted|
  {
    hide IsVictim, Fits, Total, AsSet;
    if evicted == [] {
      assert index - AsSet([]) == index && dirs - AsSet([]) == dirs by {
        EmptyAsSet();
      }
      assert [v][1..] == [];
      assert EvictionRun(index - {v}, locks, dirs - {v}, other, reserved, bytes, usable, [v][1..]);
    } else {
      var e := evicted[0];
      assert AsSet(evicted) == {e} + AsSet(evicted[1..]) by {
        FirstAsSet(evicted);
      }
      MinusTwice(index, {e}, AsSet(evicted[1..]));
      MinusTwice(dirs, {e}, AsSet(evicted[1..]));
      RunOneMore(index - {e}, locks, dirs - {e}, other, reserved, bytes, usable, evicted[1..], v);
      assert (evicted + [v])[1..] == evicted[1..] + [v];
    }
  }

  lemma EmptyAsSet()
    ensures AsSet([]) == {}
  {
  }

  lemma SingleAsSet(v: Path)
    ensures AsSet([v]) == {v}
  {
  }

  lemma FirstAsSet(q: seq<Path>)
    requires q != []
    ensures AsSet(q) == {q[0]} + AsSet(q[1..])
  {
    assert q == [q[0]] + q[1..];
  }

  /**
    Whether only brought in line with the directories or written back with
    buffered times and without victims, the index stays in agreement exactly
    when what it newly lists was last accessed this very moment.
  */
  lemma StoredRecency(
    index: Index, pending: map<Path, Millis>, latest: map<Path, Millis>, dirs: map<Path, nat>, now: Millis,
    gone: set<Path>, stored: Index)
    requires Agrees(index, pending, latest, now)
    requires stored == Synced(index, dirs, now) || stored == EvictionView(index, pending, dirs, now) - gone
    ensures Agrees(stored, pending, latest, now)
            <==> forall p | p in stored && p !in index :: p in latest && latest[p] == now
  {
    forall p | p in stored
      ensures (p in latest && RecencyOf(stored, pending, p) == latest[p]) <==> p in index || (p in latest && latest[p] == now)
    {
      assert p in index ==> RecencyOf(index, pending, p) == latest[p];
    }
  }

  /** Where an eviction loop stands: what it removed was a run, and nothing else is missing. */
  ghost predicate Progress(
    full: Index, locks: map<Path, nat>, dirs0: map<Path, nat>, other: nat, reserved: nat, bytes: nat, usable: nat,
    evicted: seq<Path>, work: Index, dirs: map<Path, nat>)
  {
    && EvictionRun(full, locks, dirs0, other, reserved, bytes, usable, evicted)
    && work == full - AsSet(evicted)
    && dirs == dirs0 - AsSet(evicted)
  }

  lemma ProgressStart(
    full: Index, locks: map<Path, nat>, dirs: map<Path, nat>, other: nat, reserved: nat, bytes: nat, usable: nat)
    ensures Progress(full, locks, dirs, other, reserved, bytes, usable, [], full, dirs)
  {
    assert full == full - AsSet([]) && dirs == dirs - AsSet([]);
  }

  lemma ProgressStep(
    full: Index, locks: map<Path, nat>, dirs0: map<Path, nat>, other: nat, reserved: nat, bytes: nat, usable: nat,
    evicted: seq<Path>, work: Index, dirs: map<Path, nat>, v: Path)
    requires Progress(full, locks, dirs0, other, reserved, bytes, usable, evicted, work, dirs)
    requires IsVictim(work, locks, v) && !Fits(Total(dirs) + other, reserved, bytes, usable)
    ensures Progress(full, locks, dirs0, other, reserved, bytes, usable, evicted + [v], work - {v}, dirs - {v})
    ensures Entries(work - {v}) < Entries(work)
    ensures (evicted + [v])[..|evicted|] == evicted
  {
    hide IsVictim, EvictionRun, Fits, Total, AsSet, Entries, Evictable, Before, SatAdd;
    FewerToEvict(work, locks, v);
    RunOneMore(full, locks, dirs0, other, reserved, bytes, usable, evicted, v);
    AsSetSplit(evicted, [v]);
    SingleAsSet(v);
    MinusTwice(full, AsSet(evicted), {v});
    MinusTwice(dirs0, AsSet(evicted), {v});
  }

  lemma FewerToEvict(index: Index, locks: map<Path, nat>, v: Path)
    requires IsVictim(index, locks, v)
    ensures Entries(index - {v}) < Entries(index)
  {
    assert v in index;
    hide IsVictim, Evictable;
    assert (index - {v}).Keys == index.Keys - {v};
    assert |index - {v}| == |(index - {v}).Keys| && |index| == |index.Keys|;
  }

  ghost function Entries(index: Index): nat {
    |index|
  }

  /** What an eviction loop has done when it stops. */
  lemma ProgressMeans(
    full: Index, locks: map<Path, nat>, dirs0: map<Path, nat>, other: nat, reserved: nat, bytes: nat, usable: nat,
    evicted: seq<Path>, work: Index, dirs: map<Path, nat>)
    requires Progress(full, locks, dirs0, other, reserved, bytes, usable, evicted, work, dirs)
    ensures EvictionRun(full, locks, dirs0, other, reserved, bytes, usable, evicted)
    ensures work == full - AsSet(evicted) && dirs == dirs0 - AsSet(evicted)
  {
  }

  lemma SparedRemain(index: Index, locks: map<Path, nat>, evicted: seq<Path>)
    ensures forall q | Evictable(index, locks, q) && q !in evicted :: Evictable(index - AsSet(evicted), locks, q)
  {
  }

  lemma AgreesLater(index: Index, pending: map<Path, Millis>, latest: map<Path, Millis>, now: Millis, later: Millis)
    requires Agrees(index, pending, latest, now) && now <= later
    ensures Agrees(index, pending, latest, later)
  {
  }

  /** The victim is determined, so two runs over the same index are one an initial part of the other. */
  lemma {:induction false} RunsAreNested(
    index: Index, locks: map<Path, nat>, dirs: map<Path, nat>, other: nat,
    reserved: nat, bytes: nat, usable: nat, a: seq<Path>, b: seq<Path>)
    requires EvictionRun(index, locks, dirs, other, reserved, bytes, usable, a)
    requires EvictionRun(index, locks, dirs, other, reserved, bytes, usable, b)
    ensures a <= b || b <= a
    decreases |a|
  {
    if a != [] && b != [] {
      VictimIsUnique(index, locks, a[0], b[0]);
      RunsAreNested(index - {a[0]}, locks, dirs - {a[0]}, other, reserved, bytes, usable, a[1..], b[1..]);
      assert a == [a[0]] + a[1..] && b == [b[0]] + b[1..];
    }
  }

  lemma BeforeIsStrict(index: Index, p: Path, q: Path)
    requires p in index && q in index
    ensures !(Before(index, p, q) && Before(index, q, p))
  {
  }

  lemma VictimIsUnique(index: Index, locks: map<Path, nat>, v: Path, w: Path)
    requires IsVictim(index, locks, v) && IsVictim(index, locks, w)
    ensures v == w
  {
    BeforeIsStrict(index, v, w);
    hide Before;
  }

  /** Two runs over the same index that went on until they were over are the same. */
  lemma RunIsDetermined(
    index: Index, locks: map<Path, nat>, dirs: map<Path, nat>, other: nat,
    reserved: nat, bytes: nat, usable: nat, a: seq<Path>, b: seq<Path>)
    requires EvictionRun(index, locks, dirs, other, reserved, bytes, usable, a)
    requires EvictionRun(index, locks, dirs, other, reserved, bytes, usable, b)
    requires Stopped(index, locks, dirs, other, reserved, bytes, usable, a)
    requires Stopped(index, locks, dirs, other, reserved, bytes, usable, b)
    ensures a == b
  {
    RunsAreNested(index, locks, dirs, other, reserved, bytes, usable, a, b);
    if a < b {
      OverIsOver(index, locks, dirs, other, reserved, bytes, usable, a, b);
    } else if b < a {
      OverIsOver(index, locks, dirs, other, reserved, bytes, usable, b, a);
    }
  }

  /** No run goes on where another was over. */
  lemma {:induction false} OverIsOver(
    index: Index, locks: map<Path, nat>, dirs: map<Path, nat>, other: nat,
    reserved: nat, bytes: nat, usable: nat, a: seq<Path>, b: seq<Path>)
    requires a < b && EvictionRun(index, locks, dirs, other, reserved, bytes, usable, b)
    ensures !Stopped(index, locks, dirs, other, reserved, bytes, usable, a)
    decreases |a|
  {
    EvictedArePrefix(index, locks, dirs, other, reserved, bytes, usable, b);
    assert forall i | 0 <= i < |b| :: b[i] in index;
    hide Evictable, IsVictim, Total, Fits, Before;
    if a == [] {
      assert dirs - AsSet([]) == dirs;
      assert Evictable(index, locks, b[0]);
    } else {
      var v := b[0];
      OverIsOver(index - {v}, locks, dirs - {v}, other, reserved, bytes, usable, a[1..], b[1..]);
      FirstAsSet(a);
      assert dirs - {v} - AsSet(a[1..]) == dirs - AsSet(a);
      NextIsSpared(index, locks, a, b);
    }
  }

  lemma NextIsSpared(index: Index, locks: map<Path, nat>, a: seq<Path>, b: seq<Path>)
    requires a < b && forall i | 0 <= i < |b| :: b[i] in index && Evictable(index, locks, b[i])
    requires forall i, j | 0 <= i < j < |b| :: Before(index, b[i], b[j])
    ensures exists q :: Evictable(index, locks, q) && q !in a
  {
    var q := b[|a|];
    assert Evictable(index, locks, q);
  }

  /**
    Where flush timing is invisible, a flush before a reservation changes
    nothing about whom it evicts.
  */
  lemma SameEvictions(
    index: Index, pending: map<Path, Millis>, locks: map<Path, nat>, dirs: map<Path, nat>, other: nat,
    reserved: nat, bytes: nat, usable: nat, now: Millis, a: seq<Path>, b: seq<Path>)
    requires forall p | p in pending :: pending[p] <= now
    requires forall p | p in pending && p !in index && p in dirs :: pending[p] == now
    requires var view := EvictionView(index, pending, dirs, now);
             && EvictionRun(view, locks, dirs, other, reserved, bytes, usable, a)
             && Stopped(view, locks, dirs, other, reserved, bytes, usable, a)
    requires var view := EvictionView(Flushed(index, dirs, pending), map[], dirs, now);
             && EvictionRun(view, locks, dirs, other, reserved, bytes, usable, b)
             && Stopped(view, locks, dirs, other, reserved, bytes, usable, b)
    ensures a == b
  {
    hide EvictionRun, EvictionView, Flushed, Stopped;
    FlushTiming(index, pending, dirs, now);
    RunIsDetermined(EvictionView(index, pending, dirs, now), locks, dirs, other, reserved, bytes, usable, a, b);
  }

  // -------------------------------------------------------------------- the manager

  datatype Error = DiskFull | Conflict | Unavailable

  class DiskManager {
    const quota: nat
    const minFree: nat
    /** Repository directories with their sizes, and everything else under the cache root. */
    var dirs: map<Path, nat>
    var other: nat
    var index: Index
    var pending: map<Path, Millis>
    var locks: map<Path, nat>
    var reservations: map<nat, nat>
    /** The lock handles that are alive, and the latest access recorded for each path. */
    ghost var live: multiset<Path>
    ghost var latest: map<Path, Millis>
    /** File system calls that have failed. */
    ghost var faults: nat

    constructor (quota: nat, minFree: nat)
      ensures this.quota == quota && this.minFree == minFree
      ensures dirs == map[] && index == map[] && pending == map[] && locks == map[] && reservations == map[]
      ensures other == 0 && live == multiset{} && latest == map[] && faults == 0
      ensures LocksSound() && RecencySound(0)
    {
      this.quota, this.minFree := quota, minFree;
      dirs, other, index, pending, locks, reservations := map[], 0, map[], map[], map[], map[];
      live, latest, faults := multiset{}, map[], 0;
    }

    function Usable(): nat {
      SatSub(quota, minFree)
    }

    // ------------------------------------------------------------------- locks

    /** The count of a path is the number of its live handles, and only paths with handles are listed. */
    ghost predicate LocksSound()
      reads this
    {
      && (forall p | p in locks :: locks[p] > 0 && locks[p] == live[p])
      && (forall p | p in live :: p in locks)
    }

    method LockRepo(p: Path)
      requires LocksSound()
      modifies this`locks, this`live
      ensures LocksSound() && live == old(live) + multiset{p}
      ensures locks == old(locks)[p := (if p in old(locks) then old(locks)[p] else 0) + 1]
    {
      locks := locks[p := (if p in locks then locks[p] else 0) + 1];
      live := live + multiset{p};
    }

    /** Dropping a handle. */
    method DropLock(p: Path)
      requires LocksSound() && p in live
      modifies this`locks, this`live
      ensures LocksSound() && live == old(live) - multiset{p}
      ensures locks == if old(locks)[p] == 1 then old(locks) - {p} else old(locks)[p := old(locks)[p] - 1]
    {
      if p in locks {
        var count := SatSub(locks[p], 1);
        locks := if count == 0 then locks - {p} else locks[p := count];
      }
      live := live - multiset{p};
    }

    // ------------------------------------------------------------------- recency

    /**
      Buffering is invisible: the recency of every indexed repository is the
      latest access ever recorded for it, whether that has been flushed or not.
    */
    ghost predicate RecencySound(now: Millis)
      reads this
    {
      Agrees(index, pending, latest, now)
    }

    /** Notes an access in memory only. */
    method NoteAccess(p: Path, now: Millis)
      modifies this`pending, this`latest
      ensures pending == old(pending)[p := now] && latest == old(latest)[p := now]
      ensures old(RecencySound(now)) ==> RecencySound(now)
    {
      pending, latest := pending[p := now], latest[p := now];
    }

    /** Records an access in the persistent index, or fails and leaves it alone. */
    method RecordAccess(p: Path, now: Millis) returns (r: Result<(), Error>)
      modifies this`index, this`latest, this`faults
      ensures faults == old(faults) + if r == Err(Unavailable) then 1 else 0
      ensures r.Ok? ==>
                && latest == old(latest)[p := now]
                && index == old(index)[p := Entry(if p in dirs then dirs[p] else 0, now, Protected(old(index), p))]
      ensures r.Err? ==> r == Err(Unavailable) && index == old(index) && latest == old(latest)
      ensures old(RecencySound(now)) ==> RecencySound(now)
    {
      var protected := p in index && index[p].protected;
      if * {
        faults := faults + 1;
        return Err(Unavailable);
      }
      index := index[p := Entry(if p in dirs then dirs[p] else 0, now, protected)];
      latest := latest[p := now];
      return Ok(());
    }

    /** Refreshes the access time of an indexed repository, or records it in full. */
    method TouchAccess(p: Path, now: Millis) returns (r: Result<(), Error>)
      modifies this`index, this`latest, this`faults
      ensures faults == old(faults) + if r == Err(Unavailable) then 1 else 0
      ensures r.Ok? ==>
                && latest == old(latest)[p := now]
                && index == old(index)[p := if p in old(index) then old(index)[p].(lastAccess := now)
                                            else Entry(if p in dirs then dirs[p] else 0, now, false)]
      ensures r.Err? ==> r == Err(Unavailable) && index == old(index) && latest == old(latest)
      ensures old(RecencySound(now)) ==> RecencySound(now)
    {
      if p in index {
        if * {
          faults := faults + 1;
          return Err(Unavailable);
        }
        index := index[p := index[p].(lastAccess := now)];
        latest := latest[p := now];
        return Ok(());
      }
      r := RecordAccess(p, now);
    }

    /** A repository directory comes into being; nothing is recorded yet. */
    method CreateDirectory(p: Path, size: nat)
      modifies this`dirs
      ensures dirs == old(dirs)[p := size]
    {
      dirs := dirs[p := size];
    }

    /**
      Makes sure a repository directory exists: a new one is recorded, an
      existing one touched.  When recording fails the directory stays behind,
      unindexed.
    */
    method EnsureRepo(p: Path, size: nat, now: Millis) returns (r: Result<(), Error>)
      modifies this`dirs, this`index, this`latest, this`faults
      ensures faults == old(faults) + if r == Err(Unavailable) then 1 else 0
      ensures dirs == old(dirs) || (p !in old(dirs) && dirs == old(dirs)[p := size])
      ensures r.Ok? ==> p in dirs && p in index && index[p].lastAccess == now && latest == old(latest)[p := now]
      ensures r.Err? ==> r == Err(Unavailable) && index == old(index) && latest == old(latest)
      ensures old(RecencySound(now)) ==> RecencySound(now)
    {
      if p in dirs {
        r := TouchAccess(p, now);
        return;
      }
      if * {
        faults := faults + 1;
        return Err(Unavailable);
      }
      CreateDirectory(p, size);
      r := RecordAccess(p, now);
    }

    /** Changes the protection of one repository, without counting as an access of an indexed one. */
    method SetProtected(p: Path, protected: bool, now: Millis) returns (r: Result<(), Error>)
      modifies this`index, this`latest, this`faults
      ensures faults == old(faults) + if r == Err(Unavailable) then 1 else 0
      ensures r.Ok? ==>
                && index == old(index)[p := Entry(if p in dirs then dirs[p] else 0,
                                                  if p in old(index) then old(index)[p].lastAccess else now, protected)]
                && latest == if p in old(index) then old(latest) else old(latest)[p := now]
      ensures r.Err? ==> r == Err(Unavailable) && index == old(index) && latest == old(latest)
      ensures old(RecencySound(now)) ==> RecencySound(now)
    {
      if * {
        faults := faults + 1;
        return Err(Unavailable);
      }
      if p !in index {
        latest := latest[p := now];
      }
      var last := if p in index then index[p].lastAccess else now;
      index := index[p := Entry(if p in dirs then dirs[p] else 0, last, protected)];
      return Ok(());
    }

    /** The index with a set of access times applied, one path at a time in any order, and how many took effect. */
    static method ApplyPending(index: Index, dirs: map<Path, nat>, taken: map<Path, Millis>)
      returns (flushed: Index, applied: nat)
      ensures flushed == Flushed(index, dirs, taken) && applied == |Applied(index, dirs, taken)|
    {
      hide Flushed, Applied;
      FlushNone(index, dirs);
      flushed, applied := index, 0;
      var todo := taken.Keys;
      ghost var done: map<Path, Millis> := map[];
      while todo != {}
        invariant todo <= taken.Keys && done == taken - todo
        invariant flushed == Flushed(index, dirs, done) && applied == |Applied(index, dirs, done)|
        decreases |todo|
      {
        var p :| p in todo;
        FlushOneMore(index, dirs, done, p, taken[p]);
        ApplyOneMore(index, dirs, done, p, taken[p]);
        flushed, applied := ApplyOne(flushed, dirs, p, taken[p], applied);
        assert done[p := taken[p]] == taken - (todo - {p});
        done := done[p := taken[p]];
        todo := todo - {p};
      }
      assert done == taken;
    }

    static method ApplyOne(index: Index, dirs: map<Path, nat>, p: Path, t: Millis, applied: nat)
      returns (index': Index, applied': nat)
      ensures index' == if p in index then index[p := index[p].(lastAccess := Max(index[p].lastAccess, t))]
                        else if p in dirs then index[p := Entry(dirs[p], t, false)]
                        else index
      ensures applied' == applied + if p in index || p in dirs then 1 else 0
    {
      if p in index {
        return index[p := index[p].(lastAccess := Max(index[p].lastAccess, t))], applied + 1;
      }
      if p in dirs {
        return index[p := Entry(dirs[p], t, false)], applied + 1;
      }
      return index, applied;
    }

    /**
      Applies the buffered times in one index write.  When that fails, the
      entries go back into the buffer and the index is as before.
    */
    method FlushAccesses(now: Millis) returns (r: Result<nat, Error>)
      modifies this`index, this`pending, this`faults
      ensures faults == old(faults) + if r == Err(Unavailable) then 1 else 0
      ensures r.Ok? ==> index == Flushed(old(index), dirs, old(pending)) && pending == map[]
      ensures r.Ok? ==> r.value == |Applied(old(index), dirs, old(pending))|
      ensures r.Err? ==> r == Err(Unavailable) && index == old(index) && pending == old(pending)
      ensures old(RecencySound(now)) ==>
                (RecencySound(now)
                 <==> r.Err? || forall p | p in old(pending) && p !in old(index) && p in dirs :: old(pending)[p] == latest[p])
    {
      FlushNone(index, dirs);
      if RecencySound(now) {
        FlushRecency(index, dirs, pending, latest, now);
      }
      var taken := pending;
      pending := map[];
      if taken == map[] {
        assert Applied(index, dirs, taken) == {};
        return Ok(0);
      }
      var flushed, applied := ApplyPending(index, dirs, taken);
      if * {
        pending, faults := taken, faults + 1;
        return Err(Unavailable);
      }
      index := flushed;
      return Ok(applied);
    }

    // ----------------------------------------------------------- reserve and evict

    /** The index that eviction works on. */
    ghost function EvictionIndex(now: Millis): Index
      reads this
    {
      EvictionView(index, pending, dirs, now)
    }

    /** What is stored, reserved and asked for, against what may be used. */
    ghost predicate Room(bytes: nat)
      reads this
    {
      Fits(Total(dirs) + other, ReservedBytes(), bytes, Usable())
    }

    ghost function ReservedBytes(): nat
      reads this`reservations
    {
      Total(reservations)
    }

    method Measure(bytes: nat) returns (fits: bool)
      requires ReservedBytes() <= U64_MAX
      ensures fits <==> Room(bytes)
    {
      var stored := SumUp(dirs);
      var used := SatAdd(stored, other);
      var reserved := SumUp(reservations);
      fits := SatAdd(SatAdd(used, reserved), bytes) <= Usable();
    }

    /** What the index file holds after a run of evictions. */
    ghost function StoredAfter(evicted: seq<Path>, now: Millis): Index
      reads this
    {
      if evicted == [] then Synced(index, dirs, now) else EvictionIndex(now) - AsSet(evicted)
    }

    /**
      Makes room for a request.  The repositories removed are, in order, the
      successive victims of the index with the buffered times taken into
      account, each removed only while the request did not fit.  Ok means it
      fits now; DiskFull means it does not and nothing is left to evict.  A
      failing file system can leave the index one eviction behind.
    */
    method EvictUntilAvailable(bytes: nat, now: Millis) returns (r: Result<(), Error>, ghost evicted: seq<Path>)
      requires ReservedBytes() <= U64_MAX
      modifies this`dirs, this`index, this`faults
      ensures faults == old(faults) + if r == Err(Unavailable) then 1 else 0
      ensures EvictionRun(old(EvictionIndex(now)), locks, old(dirs), other, ReservedBytes(), bytes, Usable(), evicted)
      ensures dirs == old(dirs) - AsSet(evicted)
      ensures index == old(StoredAfter(evicted, now))
              || (r == Err(Unavailable) && evicted != [] && index == old(StoredAfter(evicted[..|evicted| - 1], now)))
      ensures r.Ok? ==> Room(bytes)
      ensures r == Err(DiskFull) ==> !Room(bytes) && forall q | Evictable(old(EvictionIndex(now)), locks, q) :: q in evicted
      ensures r != Err(Unavailable) ==>
                Stopped(old(EvictionIndex(now)), locks, old(dirs), other, ReservedBytes(), bytes, Usable(), evicted)
      ensures forall p | p in evicted :: p in old(dirs) && p !in locks && !Protected(old(index), p)
      ensures r.Err? ==> r.error.DiskFull? || r.error.Unavailable?
    {
      hide Entries, Fits, SatAdd, SatSub, Max, Before, Total, EvictionRun, IsVictim, Synced, WithPending, Evictable, Progress, AsSet,
           Protected;
      ghost var dirs0, full, reserved := dirs, EvictionIndex(now), ReservedBytes();
      ghost var usable := Usable();
      r, evicted := Err(Unavailable), [];
      index := Synced(index, dirs, now);
      var work := WithPending(index, pending);
      ProgressStart(full, locks, dirs0, other, reserved, bytes, usable);
      while true
        invariant Progress(full, locks, dirs0, other, reserved, bytes, usable, evicted, work, dirs)
        invariant r == Err(Unavailable) && faults == old(faults)
        invariant index == old(StoredAfter(evicted, now))
        decreases Entries(work)
      {
        ProgressMeans(full, locks, dirs0, other, reserved, bytes, usable, evicted, work, dirs);
        var fits := Measure(bytes);
        if fits {
          r := Ok(());
          break;
        }
        var victim := LruEvictable(work, locks);
        if victim.None? {
          SparedRemain(full, locks, evicted);
          r := Err(DiskFull);
          break;
        }
        var v := victim.value;
        ProgressStep(full, locks, dirs0, other, reserved, bytes, usable, evicted, work, dirs, v);
        var removed, written := RemoveVictim(v, work);
        if !removed {
          break;
        }
        evicted := evicted + [v];
        work := work - {v};
        ProgressMeans(full, locks, dirs0, other, reserved, bytes, usable, evicted, work, dirs);
        if !written {
          break;
        }
      }
      EvictedMayGo(old(index), pending, locks, dirs0, other, reserved, bytes, usable, now, evicted);
    }

    /** Deletes a repository and stores the index without it; either can fail. */
    method RemoveVictim(v: Path, work: Index) returns (removed: bool, written: bool)
      modifies this`dirs, this`index, this`faults
      ensures dirs == if removed then old(dirs) - {v} else old(dirs)
      ensures index == if written then work - {v} else old(index)
      ensures written ==> removed
      ensures faults == old(faults) + if written then 0 else 1
    {
      if * {
        faults := faults + 1;
        return false, false;
      }
      dirs := dirs - {v};
      if * {
        faults := faults + 1;
        return true, false;
      }
      index := work - {v};
      return true, true;
    }

    /** Sets space aside for a download, after making room for it. */
    method Reserve(id: nat, bytes: nat, now: Millis) returns (r: Result<nat, Error>, ghost evicted: seq<Path>)
      requires id !in reservations && ReservedBytes() <= U64_MAX
      modifies this`dirs, this`index, this`reservations, this`faults
      ensures faults == old(faults) + if r == Err(Unavailable) then 1 else 0
      ensures EvictionRun(old(EvictionIndex(now)), locks, old(dirs), other, old(ReservedBytes()), bytes, Usable(), evicted)
      ensures dirs == old(dirs) - AsSet(evicted)
      ensures r.Ok? ==> r.value == id && reservations == old(reservations)[id := bytes] && ReservedBytes() == old(ReservedBytes()) + bytes
      ensures r.Ok? ==> Fits(Total(dirs) + other, old(ReservedBytes()), bytes, Usable())
      ensures r.Ok? && Usable() < U64_MAX ==> Total(dirs) + other + ReservedBytes() <= Usable()
      ensures r.Err? ==> reservations == old(reservations) && r.error in {DiskFull, Unavailable}
      ensures forall p | p in evicted :: p in old(dirs) && p !in locks && !Protected(old(index), p)
      ensures r == Err(DiskFull) ==> !Room(bytes) && forall q | Evictable(old(EvictionIndex(now)), locks, q) :: q in evicted
      ensures r != Err(Unavailable) ==>
                Stopped(old(EvictionIndex(now)), locks, old(dirs), other, old(ReservedBytes()), bytes, Usable(), evicted)
      ensures index == old(StoredAfter(evicted, now))
              || (r == Err(Unavailable) && evicted != [] && index == old(StoredAfter(evicted[..|evicted| - 1], now)))
      ensures old(RecencySound(now)) ==>
                (RecencySound(now) <==> forall p | p in index && p !in old(index) :: p in latest && latest[p] == now)
    {
      hide EvictionRun, Stopped, IsVictim, Agrees, Synced, EvictionView, AsSet, Total, Evictable;
      var made;
      made, evicted := EvictUntilAvailable(bytes, now);
      if old(RecencySound(now)) {
        var gone := if index == old(StoredAfter(evicted, now)) then AsSet(evicted) else AsSet(evicted[..|evicted| - 1]);
        StoredRecency(old(index), pending, latest, old(dirs), now, gone, index);
      }
      if made.Err? {
        return Err(made.error), evicted;
      }
      var fits := Measure(bytes);
      if !fits {
        return Err(DiskFull), evicted;
      }
      if * {
        faults := faults + 1;
        return Err(Unavailable), evicted;
      }
      reservations := reservations[id := bytes];
      TotalWithout(reservations, id);
      assert reservations - {id} == old(reservations);
      if Usable() < U64_MAX {
        FitsIsExact(Total(dirs) + other, Total(old(reservations)), bytes, Usable());
      }
      return Ok(id), evicted;
    }

    /** Dropping a reservation gives its bytes back. */
    method ReleaseReservation(id: nat)
      modifies this`reservations
      ensures reservations == old(reservations) - {id}
      ensures old(ReservedBytes()) == ReservedBytes() + if id in old(reservations) then old(reservations)[id] else 0
    {
      if id in reservations {
        TotalWithout(reservations, id);
      } else {
        assert reservations - {id} == reservations;
      }
      reservations := reservations - {id};
    }

    /**
      Moves a repository out of the way and forgets it, unless it is locked.
      The moved directory still counts until it has been deleted.
    */
    method InvalidateRepo(p: Path, now: Millis) returns (r: Result<(), Error>)
      modifies this`dirs, this`other, this`index, this`pending, this`faults
      ensures faults == old(faults) + if r == Err(Unavailable) then 1 else 0
      ensures p in locks <==> r == Err(Conflict)
      ensures p in locks ==> dirs == old(dirs) && other == old(other) && index == old(index) && pending == old(pending)
      ensures r.Ok? ==> dirs == old(dirs) - {p} && other == old(other) && index == old(index) - {p} && pending == old(pending) - {p}
      ensures dirs == old(dirs) || dirs == old(dirs) - {p}
      ensures r == Err(Unavailable) ==>
                && other == old(other) + (if p in old(dirs) && p !in dirs then old(dirs)[p] else 0)
                && ((index == old(index) && pending == old(pending))
                    || (dirs == old(dirs) - {p} && index == old(index) - {p} && pending == old(pending) - {p}))
      ensures r.Err? ==> r.error.Conflict? || r.error.Unavailable?
      ensures Total(dirs) + other <= Total(old(dirs)) + old(other)
      ensures r.Err? ==> Total(dirs) + other == Total(old(dirs)) + old(other)
      ensures old(RecencySound(now)) ==> RecencySound(now)
    {
      hide Total;
      if p in locks {
        return Err(Conflict);
      }
      var moved := 0;
      if p in dirs {
        TotalWithout(dirs, p);
        if * {
          faults := faults + 1;
          return Err(Unavailable);
        }
        moved := dirs[p];
        other := other + moved;
      }
      dirs := dirs - {p};
      assert p !in old(dirs) ==> dirs == old(dirs);
      if * {
        faults := faults + 1;
        return Err(Unavailable);
      }
      index, pending := index - {p}, pending - {p};
      if * {
        faults := faults + 1;
        return Err(Unavailable);
      }
      other := other - moved;
      return Ok(());
    }
  }
}
