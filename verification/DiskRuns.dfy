/**
  Whole runs of the disk manager: any sequence of its operations, each of which
  may fail, and what holds at every moment of every such run.
*/
module DiskRuns {
  import opened Wrappers
  import opened DiskManager

  /** Everything a manager knows, with the live lock handles and the accesses recorded so far. */
  datatype Snapshot = Snapshot(
    dirs: map<Path, nat>, other: nat, index: Index, pending: map<Path, Millis>, locks: map<Path, nat>,
    reservations: map<nat, nat>, live: multiset<Path>, latest: map<Path, Millis>)
  {
    ghost predicate LocksRight() {
      && (forall p | p in locks :: locks[p] > 0 && locks[p] == live[p])
      && (forall p | p in live :: p in locks)
    }

    predicate AgreesAt(now: Millis) {
      Agrees(index, pending, latest, now)
    }

    function View(now: Millis): Index {
      EvictionView(index, pending, dirs, now)
    }
  }

  const NOTHING: Snapshot := Snapshot(map[], 0, map[], map[], map[], map[], multiset{}, map[])

  datatype Op =
    | Lock(p: Path)
    | Unlock(p: Path)
    | MakeDirectory(p: Path, size: nat)
    | Resize(p: Path, size: nat)
    | Note(p: Path)
    | Record(p: Path)
    | Touch(p: Path)
    | Protect(p: Path, on: bool)
    | Flush
    | Reserve(id: nat, bytes: nat)
    | Release(id: nat)
    | Invalidate(p: Path)

  /** An operation as it happened: when, whether it succeeded, what it evicted, and whether the file system failed it. */
  datatype Event = Event(op: Op, at: Millis, ok: bool, evicted: seq<Path>, fault: bool)

  function SizeOf(s: Snapshot, p: Path): nat {
    if p in s.dirs then s.dirs[p] else 0
  }

  /** The index file after evictions. */
  function IndexAfter(s: Snapshot, evicted: seq<Path>, now: Millis): Index {
    if evicted == [] then Synced(s.index, s.dirs, now) else s.View(now) - AsSet(evicted)
  }

  /** How a reservation changes the manager: the index may be left one eviction behind when it fails. */
  ghost predicate Reserved(usable: nat, e: Event, s: Snapshot, t: Snapshot)
    requires e.op.Reserve?
  {
    && EvictionRun(s.View(e.at), s.locks, s.dirs, s.other, Total(s.reservations), e.op.bytes, usable, e.evicted)
    && t == s.(dirs := s.dirs - AsSet(e.evicted), index := t.index,
               reservations := if e.ok then s.reservations[e.op.id := e.op.bytes] else s.reservations)
    && (t.index == IndexAfter(s, e.evicted, e.at)
        || (!e.ok && e.evicted != [] && t.index == IndexAfter(s, e.evicted[..|e.evicted| - 1], e.at)))
    && (!e.fault ==> Stopped(s.View(e.at), s.locks, s.dirs, s.other, Total(s.reservations), e.op.bytes, usable, e.evicted))
    && (e.ok <==> !e.fault && Fits(Total(t.dirs) + t.other, Total(s.reservations), e.op.bytes, usable))
    && (e.ok && usable < U64_MAX ==> Total(t.dirs) + t.other + Total(t.reservations) <= usable)
  }

  /** How an invalidation changes the manager: it may stop between moving, forgetting and deleting. */
  predicate Invalidated(e: Event, s: Snapshot, t: Snapshot)
    requires e.op.Invalidate?
  {
    var p := e.op.p;
    var moved := s.(dirs := s.dirs - {p}, other := s.other + SizeOf(s, p));
    var forgotten := moved.(index := s.index - {p}, pending := s.pending - {p});
    if p in s.locks then !e.ok && t == s
    else if e.ok then t == forgotten.(other := s.other)
    else t in {s, moved, forgotten}
  }

  /** Lock handles come and go; without a handle there is nothing to drop. */
  predicate Locking(e: Event, s: Snapshot, t: Snapshot)
    requires e.op.Lock? || e.op.Unlock?
  {
    var p := e.op.p;
    var count := if p in s.locks then s.locks[p] else 0;
    if e.op.Lock? then t == s.(locks := s.locks[p := count + 1], live := s.live + multiset{p})
    else if p !in s.live || count == 0 then t == s
    else t == s.(locks := if count == 1 then s.locks - {p} else s.locks[p := count - 1], live := s.live - multiset{p})
  }

  /** Directories appear and grow outside the index. */
  predicate Filing(e: Event, s: Snapshot, t: Snapshot)
    requires e.op.MakeDirectory? || e.op.Resize?
  {
    t == if e.op.MakeDirectory? == (e.op.p in s.dirs) then s else s.(dirs := s.dirs[e.op.p := e.op.size])
  }

  /** The entry that a successful access leaves in the index. */
  function Accessed(s: Snapshot, op: Op, at: Millis): Entry
    requires op.Record? || op.Touch? || op.Protect?
  {
    match op
    case Record(p) => Entry(SizeOf(s, p), at, Protected(s.index, p))
    case Touch(p) => if p in s.index then s.index[p].(lastAccess := at) else Entry(SizeOf(s, p), at, false)
    case Protect(p, on) => Entry(SizeOf(s, p), if p in s.index then s.index[p].lastAccess else at, on)
  }

  /** Accesses go to the buffer or to the index; protecting an indexed repository is not one. */
  predicate Accessing(e: Event, s: Snapshot, t: Snapshot)
    requires e.op.Note? || e.op.Record? || e.op.Touch? || e.op.Protect?
  {
    var p := e.op.p;
    if e.op.Note? then t == s.(pending := s.pending[p := e.at], latest := s.latest[p := e.at])
    else if !e.ok then t == s
    else t == s.(index := s.index[p := Accessed(s, e.op, e.at)],
                 latest := if e.op.Protect? && p in s.index then s.latest else s.latest[p := e.at])
  }

  /** Only the file system makes an operation fail, except for locked repositories and for lack of space. */
  predicate Succeeds(e: Event, s: Snapshot) {
    match e.op
    case Record(_) => e.ok <==> !e.fault
    case Touch(_) => e.ok <==> !e.fault
    case Protect(_, _) => e.ok <==> !e.fault
    case Flush => e.ok <==> !e.fault
    // For the rest of a reservation's outcome see Reserved.
    case Reserve(id, _) => e.fault || id in s.reservations ==> !e.ok
    case Invalidate(p) => (p in s.locks ==> !e.fault) && (e.ok <==> !e.fault && p !in s.locks)
    case _ => e.ok && !e.fault
  }

  /** The effect of every operation, on success and on failure. */
  ghost predicate Effect(usable: nat, e: Event, s: Snapshot, t: Snapshot) {
    Succeeds(e, s) && Changes(usable, e, s, t)
  }

  ghost predicate Changes(usable: nat, e: Event, s: Snapshot, t: Snapshot) {
    match e.op
    case Lock(_) => Locking(e, s, t)
    case Unlock(_) => Locking(e, s, t)
    case MakeDirectory(_, _) => Filing(e, s, t)
    case Resize(_, _) => Filing(e, s, t)
    case Note(_) => Accessing(e, s, t)
    case Record(_) => Accessing(e, s, t)
    case Touch(_) => Accessing(e, s, t)
    case Protect(_, _) => Accessing(e, s, t)
    case Flush => t == if e.ok then s.(index := Flushed(s.index, s.dirs, s.pending), pending := map[]) else s
    // Reservation ids are fresh, so none is used twice.
    case Reserve(id, _) => if id in s.reservations then t == s else Reserved(usable, e, s, t)
    case Release(id) => t == s.(reservations := s.reservations - {id})
    case Invalidate(_) => Invalidated(e, s, t)
  }

  ghost predicate IsRun(usable: nat, events: seq<Event>, states: seq<Snapshot>) {
    && |states| == |events| + 1
    && (forall i | 0 <= i < |events| :: Effect(usable, events[i], states[i], states[i + 1]))
    && (forall i, j | 0 <= i < j < |events| :: events[i].at <= events[j].at)
  }

  // -------------------------------------------------------------------- locks

  lemma LockingRight(e: Event, s: Snapshot, t: Snapshot)
    requires (e.op.Lock? || e.op.Unlock?) && Locking(e, s, t) && s.LocksRight()
    ensures t.LocksRight()
  {
  }

  lemma LocksUntouched(usable: nat, e: Event, s: Snapshot, t: Snapshot)
    requires Effect(usable, e, s, t) && !e.op.Lock? && !e.op.Unlock?
    ensures t.locks == s.locks && t.live == s.live
  {
    hide EvictionRun, Flushed, IndexAfter, Total, Accessed;
  }

  lemma LocksStayRight(usable: nat, e: Event, s: Snapshot, t: Snapshot)
    requires Effect(usable, e, s, t) && s.LocksRight()
    ensures t.LocksRight()
  {
    if e.op.Lock? || e.op.Unlock? {
      hide Locking, Snapshot.LocksRight;
      LockingRight(e, s, t);
    } else {
      LocksUntouched(usable, e, s, t);
      hide Effect;
    }
  }

  /** No operation takes away a locked repository. */
  lemma LockedStays(usable: nat, e: Event, s: Snapshot, t: Snapshot, p: Path)
    requires Effect(usable, e, s, t) && s.LocksRight() && p in s.live && p in s.dirs
    ensures p in t.dirs
  {
    hide EvictionRun, Flushed, IndexAfter, Total, Locking, Accessing;
    if e.op.Reserve? && e.op.id !in s.reservations {
      LockedAreSpared(s.View(e.at), s.locks, s.dirs, s.other, Total(s.reservations), e.op.bytes, usable, e.evicted, p);
      assert t.dirs == s.dirs - AsSet(e.evicted);
      hide Effect;
    } else if e.op.Invalidate? {
      assert p in s.locks && Invalidated(e, s, t);
      hide Effect;
    } else {
      hide Reserved, Invalidated;
      OthersKeepDirectories(usable, e, s, t);
      hide Effect;
    }
  }

  lemma OthersKeepDirectories(usable: nat, e: Event, s: Snapshot, t: Snapshot)
    requires Effect(usable, e, s, t) && !e.op.Invalidate? && (e.op.Reserve? ==> e.op.id in s.reservations)
    ensures s.dirs.Keys <= t.dirs.Keys
  {
    hide Reserved, Invalidated, Flushed, Accessed;
  }

  lemma {:induction false} LocksRightInRun(usable: nat, events: seq<Event>, states: seq<Snapshot>, i: nat)
    requires IsRun(usable, events, states) && states[0].LocksRight() && i < |states|
    ensures states[i].LocksRight()
  {
    hide Effect;
    if i > 0 {
      LocksRightInRun(usable, events, states, i - 1);
      LocksStayRight(usable, events[i - 1], states[i - 1], states[i]);
    }
  }

  /**
    Over every run: as long as some handle on a repository is alive, the
    repository stays, no matter how short of space the cache becomes or who asks
    for its removal.
  */
  lemma {:induction false} HeldRepositoryStays(usable: nat, events: seq<Event>, states: seq<Snapshot>, p: Path, i: nat, j: nat)
    requires IsRun(usable, events, states) && states[0].LocksRight()
    requires i <= j < |states| && p in states[i].dirs
    requires forall k | i <= k < j :: p in states[k].live
    ensures p in states[j].dirs
    decreases j - i
  {
    hide Effect;
    if i < j {
      LocksRightInRun(usable, events, states, i);
      LockedStays(usable, events[i], states[i], states[i + 1], p);
      HeldRepositoryStays(usable, events, states, p, i + 1, j);
    }
  }

  /** Only an invalidation takes away a protected repository, and only its owner's word takes the protection. */
  lemma ProtectedStays(usable: nat, e: Event, s: Snapshot, t: Snapshot, p: Path)
    requires Effect(usable, e, s, t) && p in s.dirs && Protected(s.index, p)
    requires e.op != Invalidate(p) && e.op != Protect(p, false)
    ensures p in t.dirs && Protected(t.index, p)
  {
    if e.op.Reserve? && e.op.id !in s.reservations {
      ReserveSparesProtected(usable, e, s, t, p);
    } else {
      hide EvictionRun, Stopped, Total;
    }
  }

  lemma ReserveSparesProtected(usable: nat, e: Event, s: Snapshot, t: Snapshot, p: Path)
    requires e.op.Reserve? && Reserved(usable, e, s, t) && p in s.dirs && Protected(s.index, p)
    ensures p in t.dirs && Protected(t.index, p)
  {
    EvictedMayGo(
      s.index, s.pending, s.locks, s.dirs, s.other, Total(s.reservations), e.op.bytes, usable, e.at, e.evicted);
    EvictionSees(s.index, s.pending, s.dirs, e.at);
    hide EvictionRun, Stopped, Total, EvictionView;
    assert p !in e.evicted;
  }

  /** Over every run: a protected repository stays as long as nobody lifts its protection or asks for its removal. */
  lemma {:induction false} ProtectedRepositoryStays(usable: nat, events: seq<Event>, states: seq<Snapshot>, p: Path, i: nat, j: nat)
    requires IsRun(usable, events, states) && i <= j < |states|
    requires p in states[i].dirs && Protected(states[i].index, p)
    requires forall k | i <= k < j :: events[k].op != Invalidate(p) && events[k].op != Protect(p, false)
    ensures p in states[j].dirs && Protected(states[j].index, p)
    decreases j - i
  {
    hide Effect, Protected;
    if i < j {
      ProtectedStays(usable, events[i], states[i], states[i + 1], p);
      ProtectedRepositoryStays(usable, events, states, p, i + 1, j);
    }
  }

  // -------------------------------------------------------------------- space

  lemma TotalLess(m: map<nat, nat>, id: nat)
    ensures Total(m - {id}) <= Total(m)
  {
    if id in m {
      TotalWithout(m, id);
    } else {
      assert m - {id} == m;
    }
  }

  /**
    Over every run, what has been promised never exceeds what may be used, unless
    that is all that 64 bits can count.
  */
  lemma {:induction false} PromisesFit(usable: nat, events: seq<Event>, states: seq<Snapshot>, i: nat)
    requires IsRun(usable, events, states) && Total(states[0].reservations) <= usable && i < |states|
    ensures usable < U64_MAX ==> Total(states[i].reservations) <= usable
  {
    if i > 0 {
      PromisesFit(usable, events, states, i - 1);
      if usable < U64_MAX {
        PromiseKept(usable, events[i - 1], states[i - 1], states[i]);
      }
    }
  }

  lemma PromiseKept(usable: nat, e: Event, s: Snapshot, t: Snapshot)
    requires Effect(usable, e, s, t) && usable < U64_MAX && Total(s.reservations) <= usable
    ensures Total(t.reservations) <= usable
  {
    hide EvictionRun, Stopped, Flushed, IndexAfter, Total, Accessed;
    if e.op.Release? {
      TotalLess(s.reservations, e.op.id);
    } else if e.op.Reserve? {
      hide Locking, Filing, Accessing, Invalidated;
    } else {
      assert t.reservations == s.reservations;
    }
  }

  /** What an operation adds to the promises is at most what it asks for. */
  function Asked(op: Op): nat {
    if op.Reserve? then op.bytes else 0
  }

  function Requested(ops: seq<(Op, Millis)>): nat {
    if ops == [] then 0 else Requested(ops[..|ops| - 1]) + Asked(ops[|ops| - 1].0)
  }

  lemma {:induction false} RequestedGrows(ops: seq<(Op, Millis)>, i: nat)
    requires i < |ops|
    ensures Requested(ops[..i + 1]) == Requested(ops[..i]) + Asked(ops[i].0) && Requested(ops[..i + 1]) <= Requested(ops)
    ensures Requested(ops[..0]) == 0
    decreases |ops| - i
  {
    assert ops[..i + 1][..i] == ops[..i];
    if i + 1 < |ops| {
      RequestedGrows(ops, i + 1);
    } else {
      assert ops[..i + 1] == ops;
    }
  }

  lemma PromiseGrows(usable: nat, e: Event, s: Snapshot, t: Snapshot)
    requires Effect(usable, e, s, t)
    ensures Total(t.reservations) <= Total(s.reservations) + Asked(e.op)
  {
    hide Total;
    ReservationsAfter(usable, e, s, t);
    hide Effect;
    if e.op.Release? {
      TotalLess(s.reservations, e.op.id);
    } else if t.reservations != s.reservations {
      TotalWithout(t.reservations, e.op.id);
      assert t.reservations - {e.op.id} == s.reservations;
    }
  }

  lemma ReservationsAfter(usable: nat, e: Event, s: Snapshot, t: Snapshot)
    requires Effect(usable, e, s, t)
    ensures e.op.Release? ==> t.reservations == s.reservations - {e.op.id}
    ensures !e.op.Release? && t.reservations != s.reservations ==>
              e.op.Reserve? && e.op.id !in s.reservations && t.reservations == s.reservations[e.op.id := e.op.bytes]
  {
    hide EvictionRun, Stopped, Flushed, IndexAfter, Total, Accessed;
  }

  lemma StillPromised(usable: nat, e: Event, s: Snapshot, t: Snapshot, requested: nat)
    requires Effect(usable, e, s, t)
    requires Total(s.reservations) <= requested && (usable < U64_MAX ==> Total(s.reservations) <= usable)
    ensures Total(t.reservations) <= requested + Asked(e.op) && (usable < U64_MAX ==> Total(t.reservations) <= usable)
  {
    hide Effect, Total;
    PromiseGrows(usable, e, s, t);
    if usable < U64_MAX {
      PromiseKept(usable, e, s, t);
    }
  }

  // ------------------------------------------------------------------- recency

  /** A directory the index does not know. */
  predicate Stray(s: Snapshot, p: Path) {
    p in s.dirs && p !in s.index
  }

  /**
    The two ways in which an operation gives a repository another recency than
    its latest recorded access: a flush that takes up a stray directory with a
    time older than its latest access, and a reservation that takes one up as
    accessed at that moment although it was not.
  */
  predicate Disturbs(e: Event, s: Snapshot, t: Snapshot) {
    match e.op
    case Flush => e.ok && exists p :: p in s.pending && Stray(s, p) && (p !in s.latest || s.pending[p] != s.latest[p])
    case Reserve(_, _) => exists p :: p in t.index && Stray(s, p) && (p !in s.latest || s.latest[p] != e.at)
    case _ => false
  }

  /** Any operation keeps index and buffer in agreement with the recorded accesses exactly when it does not disturb them. */
  lemma StepRecency(usable: nat, e: Event, s: Snapshot, t: Snapshot)
    requires Effect(usable, e, s, t) && s.AgreesAt(e.at)
    ensures t.AgreesAt(e.at) <==> !Disturbs(e, s, t)
  {
    if e.op.Flush? {
      FlushRecency(s.index, s.dirs, s.pending, s.latest, e.at);
      hide Agrees, Flushed;
    } else if e.op.Reserve? {
      ReserveRecency(usable, e, s, t);
    } else {
      AccessRecency(usable, e, s, t);
      hide Agrees;
    }
  }

  /** Everything but a flush and a reservation keeps the agreement. */
  lemma AccessRecency(usable: nat, e: Event, s: Snapshot, t: Snapshot)
    requires Effect(usable, e, s, t) && s.AgreesAt(e.at) && !e.op.Flush? && !e.op.Reserve?
    ensures t.AgreesAt(e.at)
  {
    hide Total, Reserved;
    if e.op.Note? || e.op.Record? || e.op.Touch? || e.op.Protect? {
      assert Accessing(e, s, t);
      hide Effect;
      AccessAgrees(e, s, t);
    } else if e.op.Invalidate? {
      assert Invalidated(e, s, t);
      hide Effect;
      InvalidationAgrees(e, s, t);
    } else {
      hide Agrees, Invalidated, Accessing;
      assert t.index == s.index && t.pending == s.pending && t.latest == s.latest;
    }
  }

  lemma AccessAgrees(e: Event, s: Snapshot, t: Snapshot)
    requires e.op.Note? || e.op.Record? || e.op.Touch? || e.op.Protect?
    requires Accessing(e, s, t) && s.AgreesAt(e.at)
    ensures t.AgreesAt(e.at)
  {
    hide Protected;
    forall q | q in t.index
      ensures q in t.latest && RecencyOf(t.index, t.pending, q) == t.latest[q]
    {
      assert q in s.index ==> RecencyOf(s.index, s.pending, q) == s.latest[q];
    }
  }

  lemma InvalidationAgrees(e: Event, s: Snapshot, t: Snapshot)
    requires e.op.Invalidate? && Invalidated(e, s, t) && s.AgreesAt(e.at)
    ensures t.AgreesAt(e.at)
  {
    forall q | q in t.index
      ensures q in t.latest && RecencyOf(t.index, t.pending, q) == t.latest[q]
    {
      assert RecencyOf(s.index, s.pending, q) == s.latest[q];
    }
  }

  lemma ReserveRecency(usable: nat, e: Event, s: Snapshot, t: Snapshot)
    requires Effect(usable, e, s, t) && s.AgreesAt(e.at) && e.op.Reserve?
    ensures t.AgreesAt(e.at) <==> !Disturbs(e, s, t)
  {
    hide EvictionRun, Total, Agrees, AsSet, EvictionView, Synced;
    if e.op.id in s.reservations {
      assert t == s;
    } else {
      var gone := if t.index == IndexAfter(s, e.evicted, e.at) then AsSet(e.evicted) else AsSet(e.evicted[..|e.evicted| - 1]);
      StoredRecency(s.index, s.pending, s.latest, s.dirs, e.at, gone, t.index);
      TakenUpAreStray(s, t, e);
    }
  }

  lemma TakenUpAreStray(s: Snapshot, t: Snapshot, e: Event)
    requires t.index == IndexAfter(s, e.evicted, e.at) || (e.evicted != [] && t.index == IndexAfter(s, e.evicted[..|e.evicted| - 1], e.at))
    ensures forall p | p in t.index && p !in s.index :: Stray(s, p)
  {
  }

  /**
    Over every run with a clock that never runs backwards, the recency of every
    indexed repository is at every moment its latest recorded access, exactly
    when no operation of the run disturbs it.
  */
  lemma RunRecency(usable: nat, events: seq<Event>, states: seq<Snapshot>, start: Millis)
    requires IsRun(usable, events, states) && states[0].AgreesAt(start)
    requires events != [] ==> start <= events[0].at
    ensures (forall i | 0 <= i < |events| :: states[i + 1].AgreesAt(events[i].at))
            <==> forall i | 0 <= i < |events| :: !Disturbs(events[i], states[i], states[i + 1])
  {
    hide Effect, Disturbs, Agrees;
    if forall i | 0 <= i < |events| :: states[i + 1].AgreesAt(events[i].at) {
      forall i | 0 <= i < |events|
        ensures !Disturbs(events[i], states[i], states[i + 1])
      {
        AgreesOnArrival(events, states, start, i);
        StepRecency(usable, events[i], states[i], states[i + 1]);
      }
    }
    if forall i | 0 <= i < |events| :: !Disturbs(events[i], states[i], states[i + 1]) {
      forall i | 0 <= i < |events|
        ensures states[i + 1].AgreesAt(events[i].at)
      {
        UndisturbedAgrees(usable, events, states, start, i);
      }
    }
  }

  /** Agreement after one operation is agreement when the next begins. */
  lemma AgreesOnArrival(events: seq<Event>, states: seq<Snapshot>, start: Millis, i: nat)
    requires i < |events| && |states| == |events| + 1
    requires states[0].AgreesAt(start) && start <= events[0].at
    requires forall j, k | 0 <= j < k < |events| :: events[j].at <= events[k].at
    requires i > 0 ==> states[i].AgreesAt(events[i - 1].at)
    ensures states[i].AgreesAt(events[i].at)
  {
    var s := states[i];
    AgreesLater(s.index, s.pending, s.latest, if i == 0 then start else events[i - 1].at, events[i].at);
  }

  lemma {:induction false} UndisturbedAgrees(usable: nat, events: seq<Event>, states: seq<Snapshot>, start: Millis, i: nat)
    requires IsRun(usable, events, states) && states[0].AgreesAt(start) && i < |events| && start <= events[0].at
    requires forall k | 0 <= k < |events| :: !Disturbs(events[k], states[k], states[k + 1])
    ensures states[i + 1].AgreesAt(events[i].at)
  {
    hide Effect, Disturbs, Agrees;
    if i > 0 {
      UndisturbedAgrees(usable, events, states, start, i - 1);
    }
    AgreesOnArrival(events, states, start, i);
    StepRecency(usable, events[i], states[i], states[i + 1]);
  }

  /**
    In a run in which no reservation and no flush begins while a directory is
    missing from the index, the recency of every indexed repository is always its
    latest recorded access.
  */
  lemma NoStraysNoLoss(usable: nat, events: seq<Event>, states: seq<Snapshot>, start: Millis)
    requires IsRun(usable, events, states) && states[0].AgreesAt(start)
    requires events != [] ==> start <= events[0].at
    requires forall i, p | 0 <= i < |events| && (events[i].op.Flush? || events[i].op.Reserve?) :: !Stray(states[i], p)
    ensures forall i | 0 <= i < |events| :: states[i + 1].AgreesAt(events[i].at)
  {
    forall i | 0 <= i < |events|
      ensures !Disturbs(events[i], states[i], states[i + 1])
    {
      assert forall p | events[i].op.Flush? || events[i].op.Reserve? :: !Stray(states[i], p);
    }
    hide IsRun, Disturbs, Agrees, Stray;
    RunRecency(usable, events, states, start);
  }

  /**
    Where every stray directory with a buffered time was noted this very moment,
    a reservation that succeeds evicts the same repositories whether a flush
    comes before it or not.
  */
  lemma FlushBeforeReserve(usable: nat, e: Event, s: Snapshot, t: Snapshot, e': Event, s': Snapshot, t': Snapshot)
    requires e.op.Reserve? && e.op.id !in s.reservations && e'.op == e.op && e'.at == e.at && e.ok && e'.ok
    requires Effect(usable, e, s, t)
    requires Effect(usable, Event(Flush, e.at, true, [], false), s, s') && Effect(usable, e', s', t')
    requires forall p | p in s.pending :: s.pending[p] <= e.at && (Stray(s, p) ==> s.pending[p] == e.at)
    ensures e.evicted == e'.evicted && t.dirs == t'.dirs
  {
    hide EvictionRun, Stopped, EvictionView, Flushed, Total, IndexAfter;
    SameEvictions(s.index, s.pending, s.locks, s.dirs, s.other, Total(s.reservations), e.op.bytes, usable, e.at, e.evicted, e'.evicted);
  }

  // ----------------------------------------------------------- the manager's own runs

  ghost function Now(m: DiskManager): Snapshot
    reads m
  {
    Snapshot(m.dirs, m.other, m.index, m.pending, m.locks, m.reservations, m.live, m.latest)
  }

  method PerformAccess(m: DiskManager, op: Op, at: Millis) returns (ok: bool, ghost fault: bool)
    requires op.Note? || op.Record? || op.Touch? || op.Protect?
    modifies m`index, m`pending, m`latest, m`faults
    ensures Accessing(Event(op, at, ok, [], fault), old(Now(m)), Now(m))
    ensures Succeeds(Event(op, at, ok, [], fault), old(Now(m)))
  {
    ok := true;
    match op {
      case Note(p) =>
        m.NoteAccess(p, at);
      case Record(p) =>
        var r := m.RecordAccess(p, at);
        ok := r.Ok?;
      case Touch(p) =>
        var r := m.TouchAccess(p, at);
        ok := r.Ok?;
      case Protect(p, on) =>
        var r := m.SetProtected(p, on, at);
        ok := r.Ok?;
    }
    fault := m.faults > old(m.faults);
  }

  method PerformLocking(m: DiskManager, op: Op, at: Millis)
    requires m.LocksSound() && (op.Lock? || op.Unlock?)
    modifies m`locks, m`live
    ensures m.LocksSound() && Locking(Event(op, at, true, [], false), old(Now(m)), Now(m))
  {
    if op.Lock? {
      m.LockRepo(op.p);
    } else if op.p in m.locks {
      assert m.live[op.p] > 0;
      m.DropLock(op.p);
    }
  }

  method PerformReserve(m: DiskManager, op: Op, at: Millis) returns (ok: bool, ghost evicted: seq<Path>, ghost fault: bool)
    requires op.Reserve? && op.id !in m.reservations
    requires m.ReservedBytes() <= U64_MAX
    modifies m`dirs, m`index, m`reservations, m`faults
    ensures Reserved(m.Usable(), Event(op, at, ok, evicted, fault), old(Now(m)), Now(m))
    ensures ok ==> !fault
  {
    hide EvictionRun, Stopped, EvictionView, Synced, Total, AsSet, Fits, Protected;
    var r;
    r, evicted := m.Reserve(op.id, op.bytes, at);
    ok, fault := r.Ok?, m.faults > old(m.faults);
  }

  method PerformInvalidate(m: DiskManager, op: Op, at: Millis) returns (ok: bool, ghost fault: bool)
    requires op.Invalidate?
    modifies m`dirs, m`other, m`index, m`pending, m`faults
    ensures Invalidated(Event(op, at, ok, [], fault), old(Now(m)), Now(m))
    ensures Succeeds(Event(op, at, ok, [], fault), old(Now(m)))
  {
    hide Total;
    var r := m.InvalidateRepo(op.p, at);
    ok, fault := r.Ok?, m.faults > old(m.faults);
    assert op.p !in old(m.dirs) ==> old(m.dirs) - {op.p} == old(m.dirs);
  }

  method Perform(m: DiskManager, op: Op, at: Millis) returns (ok: bool, ghost evicted: seq<Path>, ghost fault: bool)
    requires m.LocksSound() && m.ReservedBytes() <= U64_MAX
    modifies m
    ensures Effect(m.Usable(), Event(op, at, ok, evicted, fault), old(Now(m)), Now(m))
  {
    hide Accessing, Locking, Reserved, Invalidated, Flushed, Total, Applied, Agrees, Fits, Protected;
    ok, evicted, fault := true, [], false;
    match op {
      case Lock(_) => PerformLocking(m, op, at);
      case Unlock(_) => PerformLocking(m, op, at);
      case MakeDirectory(p, size) =>
        if p !in m.dirs {
          m.CreateDirectory(p, size);
        }
      case Resize(p, size) =>
        if p in m.dirs {
          m.dirs := m.dirs[p := size];
        }
      case Note(_) => ok, fault := PerformAccess(m, op, at);
      case Record(_) => ok, fault := PerformAccess(m, op, at);
      case Touch(_) => ok, fault := PerformAccess(m, op, at);
      case Protect(_, _) => ok, fault := PerformAccess(m, op, at);
      case Flush =>
        var r := m.FlushAccesses(at);
        ok, fault := r.Ok?, m.faults > old(m.faults);
      case Reserve(id, _) =>
        if id in m.reservations {
          ok := false;
        } else {
          ok, evicted, fault := PerformReserve(m, op, at);
        }
      case Release(id) => m.ReleaseReservation(id);
      case Invalidate(_) => ok, fault := PerformInvalidate(m, op, at);
    }
  }

  /** Lock counts are right, and no more has been promised than asked for, nor than may be used if that can be counted. */
  ghost predicate Sane(usable: nat, s: Snapshot, requested: nat) {
    s.LocksRight() && Total(s.reservations) <= requested && (usable < U64_MAX ==> Total(s.reservations) <= usable)
  }

  method PerformNext(m: DiskManager, op: Op, at: Millis, ghost requested: nat)
    returns (ok: bool, ghost evicted: seq<Path>, ghost fault: bool)
    requires Sane(m.Usable(), Now(m), requested) && (m.Usable() < U64_MAX || requested <= U64_MAX)
    modifies m
    ensures Effect(m.Usable(), Event(op, at, ok, evicted, fault), old(Now(m)), Now(m))
    ensures Sane(m.Usable(), Now(m), requested + Asked(op))
  {
    hide Effect, Total, Asked;
    ghost var s := Now(m);
    ok, evicted, fault := Perform(m, op, at);
    LocksStayRight(m.Usable(), Event(op, at, ok, evicted, fault), s, Now(m));
    StillPromised(m.Usable(), Event(op, at, ok, evicted, fault), s, Now(m), requested);
  }

  /**
    What a manager does when it is asked for any sequence of operations is a run:
    everything proved of runs holds at every moment.  When all that 64 bits can
    count may be used, the requests must add up to no more than that, since the
    sum of the reservations would overflow.
  */
  method Run(quota: nat, minFree: nat, ops: seq<(Op, Millis)>)
    returns (m: DiskManager, ghost events: seq<Event>, ghost states: seq<Snapshot>)
    requires SatSub(quota, minFree) < U64_MAX || Requested(ops) <= U64_MAX
    requires forall i, j | 0 <= i < j < |ops| :: ops[i].1 <= ops[j].1
    ensures IsRun(SatSub(quota, minFree), events, states)
    ensures |events| == |ops| && forall i | 0 <= i < |ops| :: events[i].op == ops[i].0 && events[i].at == ops[i].1
    ensures states[0] == NOTHING && states[|ops|] == Now(m)
  {
    hide Effect, Requested, IsRun, SatSub, Asked, Sane;
    m := new DiskManager(quota, minFree);
    events, states := [], [Now(m)];
    NothingPromised(m.Usable());
    EmptyRun(m.Usable(), Now(m));
    if ops != [] {
      RequestedGrows(ops, 0);
    }
    for n := 0 to |ops|
      invariant fresh(m) && m.quota == quota && m.minFree == minFree
      invariant |events| == n && |states| == n + 1 && states[0] == NOTHING && states[n] == Now(m)
      invariant forall i | 0 <= i < n :: events[i].op == ops[i].0 && events[i].at == ops[i].1
      invariant IsRun(m.Usable(), events, states)
      invariant Sane(m.Usable(), Now(m), Requested(ops[..n]))
    {
      RequestedGrows(ops, n);
      var ok;
      ghost var evicted, fault;
      ok, evicted, fault := PerformNext(m, ops[n].0, ops[n].1, Requested(ops[..n]));
      ghost var e := Event(ops[n].0, ops[n].1, ok, evicted, fault);
      RunOneMoreEvent(m.Usable(), events, states, e, Now(m));
      events, states := events + [e], states + [Now(m)];
    }
  }

  lemma NothingPromised(usable: nat)
    ensures Sane(usable, NOTHING, 0) && Requested([]) == 0
  {
  }

  // ------------------------------------------------------- where timing can be seen

  lemma EmptyRun(usable: nat, s: Snapshot)
    ensures IsRun(usable, [], [s])
  {
  }

  lemma RunOneMoreEvent(usable: nat, events: seq<Event>, states: seq<Snapshot>, e: Event, t: Snapshot)
    requires IsRun(usable, events, states) && Effect(usable, e, states[|events|], t)
    requires events != [] ==> events[|events| - 1].at <= e.at
    ensures IsRun(usable, events + [e], states + [t])
  {
    hide Effect;
    var more, all := events + [e], states + [t];
    forall i | 0 <= i < |more|
      ensures Effect(usable, more[i], all[i], all[i + 1])
    {
    }
  }

  /** A directory noted but never recorded, as a failed or interrupted recording leaves it, beside a recorded one. */
  function StrayBeside(): (seq<Event>, Snapshot) {
    ([Event(MakeDirectory(0, 1), 0, true, [], false), Event(Note(0), 1, true, [], false), Event(MakeDirectory(1, 1), 5, true, [], false),
      Event(Record(1), 5, true, [], false)],
     Snapshot(map[0 := 1, 1 := 1], 0, map[1 := Entry(1, 5, false)], map[0 := 1], map[], map[], multiset{}, map[0 := 1, 1 := 5]))
  }

  lemma StrayRun(usable: nat) returns (states: seq<Snapshot>)
    ensures var (events, s) := StrayBeside();
            IsRun(usable, events, states) && states[0] == NOTHING && states[|events|] == s
  {
    var (events, s) := StrayBeside();
    var a := NOTHING.(dirs := map[0 := 1]);
    var b := a.(pending := map[0 := 1], latest := map[0 := 1]);
    var c := b.(dirs := map[0 := 1, 1 := 1]);
    EmptyRun(usable, NOTHING);
    RunOneMoreEvent(usable, [], [NOTHING], events[0], a);
    RunOneMoreEvent(usable, [events[0]], [NOTHING, a], events[1], b);
    RunOneMoreEvent(usable, [events[0], events[1]], [NOTHING, a, b], events[2], c);
    RunOneMoreEvent(usable, [events[0], events[1], events[2]], [NOTHING, a, b, c], events[3], s);
    return [NOTHING, a, b, c, s];
  }

  lemma StrayViews()
    ensures var s := StrayBeside().1;
            && Flushed(s.index, s.dirs, s.pending) == map[0 := Entry(1, 1, false), 1 := Entry(1, 5, false)]
            && s.View(10) == map[0 := Entry(1, 10, false), 1 := Entry(1, 5, false)]
  {
  }

  lemma EarlierOfTwo(a: Entry, b: Entry)
    requires !a.protected && !b.protected
    ensures a.lastAccess < b.lastAccess ==> IsVictim(map[0 := a, 1 := b], map[], 0)
    ensures b.lastAccess < a.lastAccess ==> IsVictim(map[0 := a, 1 := b], map[], 1)
  {
  }

  lemma StrayVictims()
    ensures var s := StrayBeside().1;
            var t := s.(index := Flushed(s.index, s.dirs, s.pending), pending := map[]);
            IsVictim(s.View(10), s.locks, 1) && IsVictim(t.View(10), t.locks, 0)
  {
    var s := StrayBeside().1;
    var t := s.(index := Flushed(s.index, s.dirs, s.pending), pending := map[]);
    StrayViews();
    assert t.View(10) == t.index;
    hide EvictionView, Flushed, IsVictim;
    EarlierOfTwo(Entry(1, 10, false), Entry(1, 5, false));
    EarlierOfTwo(Entry(1, 1, false), Entry(1, 5, false));
  }

  lemma StrayAgrees()
    ensures var s := StrayBeside().1;
            var t := s.(index := Flushed(s.index, s.dirs, s.pending), pending := map[]);
            s.AgreesAt(10) && t.AgreesAt(10)
  {
    StrayViews();
    hide Flushed, EvictionView;
  }

  /**
    A run in which the timing of a flush decides who is evicted: before the flush
    the stray directory counts as accessed now and the recorded one is the
    victim, after it the stray one is.  Index and buffer agree with the recorded
    accesses all along.
  */
  lemma FlushChangesVictim(usable: nat)
    ensures var (events, s) := StrayBeside();
            var t := s.(index := Flushed(s.index, s.dirs, s.pending), pending := map[]);
            && (exists states :: IsRun(usable, events, states) && states[0] == NOTHING && states[|events|] == s)
            && Effect(usable, Event(Flush, 10, true, [], false), s, t)
            && IsVictim(s.View(10), s.locks, 1) && IsVictim(t.View(10), t.locks, 0)
            && s.AgreesAt(10) && t.AgreesAt(10)
  {
    var states := StrayRun(usable);
    StrayVictims();
    StrayAgrees();
    hide IsRun, IsVictim, Agrees, EvictionView, Flushed;
  }

  /** A repository recorded, noted, touched, evicted and made again without being recorded. */
  function MadeAgain(): (seq<Event>, Snapshot) {
    ([Event(MakeDirectory(7, 1), 0, true, [], false), Event(Record(7), 1, true, [], false), Event(Note(7), 2, true, [], false),
      Event(Touch(7), 3, true, [], false), Event(Reserve(9, 1), 4, true, [7], false), Event(MakeDirectory(7, 1), 5, true, [], false)],
     Snapshot(map[7 := 1], 0, map[], map[7 := 2], map[], map[9 := 1], multiset{}, map[7 := 3]))
  }

  lemma EvictsSeven(s: Snapshot, t: Snapshot)
    requires s == Snapshot(map[7 := 1], 0, map[7 := Entry(1, 3, false)], map[7 := 2], map[], map[], multiset{}, map[7 := 3])
    requires t == Snapshot(map[], 0, map[], map[7 := 2], map[], map[9 := 1], multiset{}, map[7 := 3])
    ensures Effect(1, Event(Reserve(9, 1), 4, true, [7], false), s, t)
  {
    var view := s.View(4);
    assert view == map[7 := Entry(1, 3, false)];
    TotalWithout(s.dirs, 7);
    TotalWithout(t.reservations, 9);
    assert s.dirs - {7} == map[] && t.reservations - {9} == map[] && view - {7} == map[];
    assert AsSet([7]) == {7};
    hide Total, EvictionView;
    assert [7][1..] == [];
    assert EvictionRun(view - {7}, s.locks, s.dirs - {7}, 0, Total(s.reservations), 1, 1, [7][1..]);
    assert IsVictim(view, s.locks, 7);
  }

  function MadeAgainStates(): seq<Snapshot> {
    var a := NOTHING.(dirs := map[7 := 1]);
    var b := a.(index := map[7 := Entry(1, 1, false)], latest := map[7 := 1]);
    var c := b.(pending := map[7 := 2], latest := map[7 := 2]);
    var d := c.(index := map[7 := Entry(1, 3, false)], latest := map[7 := 3]);
    var s := MadeAgain().1;
    [NOTHING, a, b, c, d, s.(dirs := map[]), s]
  }

  lemma MadeAgainEffects(i: nat)
    requires i < 6
    ensures Effect(1, MadeAgain().0[i], MadeAgainStates()[i], MadeAgainStates()[i + 1])
  {
    if i == 4 {
      EvictsSeven(MadeAgainStates()[4], MadeAgainStates()[5]);
    } else {
      hide EvictionRun, IndexAfter, Total;
    }
  }

  lemma MadeAgainRun()
    ensures IsRun(1, MadeAgain().0, MadeAgainStates())
    ensures MadeAgainStates()[0] == NOTHING && MadeAgainStates()[6] == MadeAgain().1
  {
    var v, states := MadeAgain().0, MadeAgainStates();
    hide Effect;
    forall i | 0 <= i < 6
      ensures Effect(1, v[i], states[i], states[i + 1])
    {
      MadeAgainEffects(i);
    }
  }

  /** A run after which a flush gives an indexed repository a recency older than its latest recorded access. */
  lemma FlushCanLoseRecency()
    ensures var (events, s) := MadeAgain();
            var t := s.(index := Flushed(s.index, s.dirs, s.pending), pending := map[]);
            && (exists states :: IsRun(1, events, states) && states[0] == NOTHING && states[|events|] == s)
            && Effect(1, Event(Flush, 6, true, [], false), s, t)
            && s.AgreesAt(6) && !t.AgreesAt(6) && t.index[7].lastAccess < t.latest[7]
  {
    var (_, s) := MadeAgain();
    var t := s.(index := Flushed(s.index, s.dirs, s.pending), pending := map[]);
    MadeAgainRun();
    assert t.index == map[7 := Entry(1, 2, false)];
    assert RecencyOf(t.index, t.pending, 7) == 2;
    hide IsRun;
  }

  /**
    When all that 64 bits can count may be used, the check always passes: two
    reservations in a row promise more than there is.
  */
  lemma PromisesCanOverrun()
    ensures var s := NOTHING.(reservations := map[0 := U64_MAX]);
            var t := NOTHING.(reservations := map[0 := U64_MAX, 1 := 1]);
            && IsRun(U64_MAX, [Event(Reserve(0, U64_MAX), 0, true, [], false), Event(Reserve(1, 1), 0, true, [], false)], [NOTHING, s, t])
            && Total(t.reservations) > U64_MAX
  {
    var s := NOTHING.(reservations := map[0 := U64_MAX]);
    var t := NOTHING.(reservations := map[0 := U64_MAX, 1 := 1]);
    TotalWithout(t.reservations, 1);
    TotalWithout(s.reservations, 0);
    assert t.reservations - {1} == s.reservations && s.reservations - {0} == map[];
    AlwaysFits(0, U64_MAX, NOTHING, s);
    AlwaysFits(1, 1, s, t);
    EmptyRun(U64_MAX, NOTHING);
    hide Effect, Total;
    RunOneMoreEvent(U64_MAX, [], [NOTHING], Event(Reserve(0, U64_MAX), 0, true, [], false), s);
    RunOneMoreEvent(U64_MAX, [Event(Reserve(0, U64_MAX), 0, true, [], false)], [NOTHING, s], Event(Reserve(1, 1), 0, true, [], false), t);
  }

  lemma AlwaysFits(id: nat, bytes: nat, s: Snapshot, t: Snapshot)
    requires s == NOTHING.(reservations := s.reservations) && id !in s.reservations
    requires t == s.(reservations := s.reservations[id := bytes])
    ensures Effect(U64_MAX, Event(Reserve(id, bytes), 0, true, [], false), s, t)
  {
    var e := Event(Reserve(id, bytes), 0, true, [], false);
    FitsIsExact(0, Total(s.reservations), bytes, U64_MAX);
    hide Total;
    assert s.dirs - AsSet([]) == s.dirs;
    assert IndexAfter(s, [], 0) == map[];
    assert Reserved(U64_MAX, e, s, t);
  }
}
