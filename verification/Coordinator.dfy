/**
  The single-flight update coordinator: concurrent updates of the same key share
  one execution, and executions for one repository exclude each other through a
  lease.  The shared tables are an object whose methods are the atomic sections
  of the program; tasks interleave between them in any order.
*/
module Coordinator {
  import opened Wrappers

  type RepoKey = string

  type EntryId = nat

  type TaskId = nat

  datatype UpdateKey = UpdateKey(repo: RepoKey, target: string)

  datatype Disposition = Updated | LeaseBusy

  /** What an update returns, and what joiners get to see of it. */
  datatype Outcome = Outcome(key: UpdateKey, disposition: Disposition)

  type Shared = Result<Outcome, string>

  // ----------------------------------------------------------- shared tables

  /** Running entries by key, the published result of every entry, the leases held. */
  datatype Tables = Tables(
    inflight: map<UpdateKey, EntryId>,
    published: map<EntryId, Option<Shared>>,
    held: set<RepoKey>)
  {
    function WithEntry(key: UpdateKey, e: EntryId): Tables {
      this.(inflight := inflight[key := e], published := published[e := None])
    }

    function WithResult(e: EntryId, r: Shared): Tables {
      this.(published := published[e := Some(r)])
    }

    /** Removes the entry of a key, but only if it is the given one. */
    function WithoutEntry(key: UpdateKey, e: EntryId): Tables {
      if key in inflight && inflight[key] == e then this.(inflight := inflight - {key}) else this
    }

    function WithLease(repo: RepoKey): Tables {
      this.(held := held + {repo})
    }

    function WithoutLease(repo: RepoKey): Tables {
      this.(held := held - {repo})
    }
  }

  class UpdateCoordinator {
    var inflight: map<UpdateKey, EntryId>
    var published: map<EntryId, Option<Shared>>
    var held: set<RepoKey>

    ghost function Now(): Tables
      reads this
    {
      Tables(inflight, published, held)
    }

    constructor ()
      ensures Now() == Tables(map[], map[], {})
    {
      inflight, published, held := map[], map[], {};
    }

    /** Joins the running entry of a key, or becomes the owner of a new one. */
    method InflightFor(key: UpdateKey, next: EntryId) returns (entry: EntryId, owner: bool)
      requires next !in published
      modifies this
      ensures owner <==> key !in old(inflight)
      ensures entry == if owner then next else old(inflight)[key]
      ensures Now() == if owner then old(Now()).WithEntry(key, next) else old(Now())
    {
      if key in inflight {
        return inflight[key], false;
      }
      inflight, published := inflight[key := next], published[next := None];
      return next, true;
    }

    method Acquire(repo: RepoKey) returns (acquired: bool)
      modifies this`held
      ensures acquired <==> repo !in old(held)
      ensures Now() == if acquired then old(Now()).WithLease(repo) else old(Now())
    {
      if repo in held {
        return false;
      }
      held := held + {repo};
      return true;
    }

    method Release(repo: RepoKey)
      modifies this`held
      ensures Now() == old(Now()).WithoutLease(repo)
    {
      held := held - {repo};
    }

    method Complete(entry: EntryId, r: Shared)
      modifies this`published
      ensures Now() == old(Now()).WithResult(entry, r)
    {
      published := published[entry := Some(r)];
    }

    /** What a joiner sees when it looks: nothing yet, or the published result. */
    method Look(entry: EntryId) returns (r: Option<Shared>)
      requires entry in published
      ensures r == published[entry]
    {
      return published[entry];
    }

    method RemoveInflight(key: UpdateKey, entry: EntryId)
      modifies this`inflight
      ensures Now() == old(Now()).WithoutEntry(key, entry)
    {
      if key in inflight && inflight[key] == entry {
        inflight := inflight - {key};
      }
    }
  }

  // -------------------------------------------------------------------- tasks

  /** How the executor, which is foreign code, ends. */
  datatype Execution = Succeeds | Fails(message: string) | Panics

  datatype Phase =
    | Fresh
    | Joined(entry: EntryId)
    | Owning(entry: EntryId)
    | Executing(entry: EntryId)
    | Finishing(entry: EntryId, result: Shared)
    | Ran(entry: EntryId, result: Shared)
    | Announced(entry: EntryId, result: Shared)
    | Returned(entry: EntryId, owner: bool, result: Shared)

  datatype Task = Task(key: UpdateKey, phase: Phase)
  {
    /** Owners are live until they have removed their entry. */
    predicate LiveOwner() {
      phase.Owning? || phase.Executing? || phase.Finishing? || phase.Ran? || phase.Announced?
    }

    /** Between acquiring the lease and giving it back. */
    predicate HoldsLease() {
      phase.Executing? || phase.Finishing?
    }
  }

  /** The tables and all tasks; owners and holders only record who created an entry and who took a lease. */
  datatype System = System(
    tables: Tables,
    tasks: map<TaskId, Task>,
    owners: map<EntryId, TaskId>,
    holders: map<RepoKey, TaskId>)

  datatype Step =
    | Arrive(task: TaskId, key: UpdateKey)
    | Enter(task: TaskId, next: EntryId)
    | TryAcquire(task: TaskId)
    | Execute(task: TaskId, ending: Execution)
    | GiveBack(task: TaskId)
    | Publish(task: TaskId)
    | Remove(task: TaskId)
    | Wake(task: TaskId)

  const PANICKED: string := "executor panicked during update"

  /** The result of an execution that held the lease. */
  function ResultOf(key: UpdateKey, ending: Execution): Shared {
    match ending
    case Succeeds => Ok(Outcome(key, Updated))
    case Fails(message) => Err(message)
    case Panics => Err(PANICKED)
  }

  /**
    One update carried out with no other task in between: it joins a running
    entry, or owns a new one from start to finish.  None means it would wait.
    Either way nothing stays in flight and no lease stays held that was not so
    before, and a new result is published only for the entry it created.
  */
  method UpdateAlone(tables: UpdateCoordinator, key: UpdateKey, next: EntryId, ending: Execution) returns (r: Option<Shared>)
    requires next !in tables.published
    requires forall k | k in tables.inflight :: tables.inflight[k] in tables.published
    modifies tables
    ensures key in old(tables.inflight) ==>
              r == old(tables.published)[old(tables.inflight)[key]] && tables.Now() == old(tables.Now())
    ensures key !in old(tables.inflight) && key.repo in old(tables.held) ==> r == Some(Ok(Outcome(key, LeaseBusy)))
    ensures key !in old(tables.inflight) && key.repo !in old(tables.held) ==>
              && (ending == Succeeds ==> r == Some(Ok(Outcome(key, Updated))))
              && (ending.Fails? ==> r == Some(Err(ending.message)))
              && (ending == Panics ==> r == Some(Err("executor panicked during update")))
    ensures key !in old(tables.inflight) ==>
              && tables.inflight == old(tables.inflight) && tables.held == old(tables.held)
              && tables.published == old(tables.published)[next := r]
  {
    var entry, owner := tables.InflightFor(key, next);
    if !owner {
      r := tables.Look(entry);
      return;
    }
    var result := Ok(Outcome(key, LeaseBusy));
    var acquired := tables.Acquire(key.repo);
    if acquired {
      result := ResultOf(key, ending);
      tables.Release(key.repo);
    }
    tables.Complete(entry, result);
    tables.RemoveInflight(key, entry);
    return Some(result);
  }

  predicate Enabled(s: System, step: Step) {
    match step
    case Arrive(t, _) => t !in s.tasks
    case Enter(t, next) => t in s.tasks && s.tasks[t].phase.Fresh? && next !in s.tables.published
    case TryAcquire(t) => t in s.tasks && s.tasks[t].phase.Owning?
    case Execute(t, _) => t in s.tasks && s.tasks[t].phase.Executing?
    case GiveBack(t) => t in s.tasks && s.tasks[t].phase.Finishing?
    case Publish(t) => t in s.tasks && s.tasks[t].phase.Ran?
    case Remove(t) => t in s.tasks && s.tasks[t].phase.Announced?
    case Wake(t) =>
      && t in s.tasks && s.tasks[t].phase.Joined?
      && s.tasks[t].phase.entry in s.tables.published && s.tables.published[s.tasks[t].phase.entry].Some?
  }

  function At(s: System, t: TaskId, phase: Phase, tables: Tables): System
    requires t in s.tasks
  {
    s.(tables := tables, tasks := s.tasks[t := s.tasks[t].(phase := phase)])
  }

  /**
    One atomic section.  A lease is given back when the execution returns and
    also when it unwinds, because dropping the lease releases it.
  */
  function Apply(s: System, step: Step): System
    requires Enabled(s, step)
  {
    match step
    case Arrive(t, key) => s.(tasks := s.tasks[t := Task(key, Fresh)])
    case Enter(t, next) =>
      var key := s.tasks[t].key;
      if key in s.tables.inflight then At(s, t, Joined(s.tables.inflight[key]), s.tables)
      else At(s, t, Owning(next), s.tables.WithEntry(key, next)).(owners := s.owners[next := t])
    case TryAcquire(t) =>
      var task := s.tasks[t];
      if task.key.repo in s.tables.held
      then At(s, t, Ran(task.phase.entry, Ok(Outcome(task.key, LeaseBusy))), s.tables)
      else At(s, t, Executing(task.phase.entry), s.tables.WithLease(task.key.repo))
           .(holders := s.holders[task.key.repo := t])
    case Execute(t, ending) =>
      At(s, t, Finishing(s.tasks[t].phase.entry, ResultOf(s.tasks[t].key, ending)), s.tables)
    case GiveBack(t) =>
      var task := s.tasks[t];
      At(s, t, Ran(task.phase.entry, task.phase.result), s.tables.WithoutLease(task.key.repo))
      .(holders := s.holders - {task.key.repo})
    case Publish(t) =>
      var phase := s.tasks[t].phase;
      At(s, t, Announced(phase.entry, phase.result), s.tables.WithResult(phase.entry, phase.result))
    case Remove(t) =>
      var task := s.tasks[t];
      At(s, t, Returned(task.phase.entry, true, task.phase.result),
         s.tables.WithoutEntry(task.key, task.phase.entry))
    case Wake(t) =>
      var e := s.tasks[t].phase.entry;
      At(s, t, Returned(e, false, s.tables.published[e].value), s.tables)
  }

  // ---------------------------------------------------------------- invariant

  /** Leases: the held set is exactly the repositories of tasks between acquire and release, one each. */
  ghost predicate LeasesSound(s: System) {
    && s.holders.Keys == s.tables.held
    && (forall r | r in s.holders ::
          s.holders[r] in s.tasks && s.tasks[s.holders[r]].HoldsLease() && s.tasks[s.holders[r]].key.repo == r)
    && (forall t | t in s.tasks && s.tasks[t].HoldsLease() ::
          s.tasks[t].key.repo in s.holders && s.holders[s.tasks[t].key.repo] == t)
  }

  /** A task that created an entry, live or already returned. */
  predicate Owns(task: Task, e: EntryId) {
    (task.LiveOwner() && task.phase.entry == e) || (task.phase.Returned? && task.phase.owner && task.phase.entry == e)
  }

  /** What an owner has published so far. */
  function Told(phase: Phase): Option<Shared> {
    match phase
    case Announced(_, r) => Some(r)
    case Returned(_, _, r) => Some(r)
    case _ => None
  }

  /** Every entry has one owner, and shows exactly what that owner has published. */
  ghost predicate EntriesSound(s: System) {
    && s.owners.Keys == s.tables.published.Keys
    && (forall e | e in s.owners ::
          && s.owners[e] in s.tasks && Owns(s.tasks[s.owners[e]], e)
          && s.tables.published[e] == Told(s.tasks[s.owners[e]].phase))
    && (forall t, e | t in s.tasks && Owns(s.tasks[t], e) :: e in s.owners && s.owners[e] == t)
  }

  /** A key is in flight exactly while its entry's owner is live. */
  ghost predicate InflightSound(s: System) {
    && (forall k | k in s.tables.inflight ::
          && s.tables.inflight[k] in s.owners
          && s.owners[s.tables.inflight[k]] in s.tasks
          && s.tasks[s.owners[s.tables.inflight[k]]].LiveOwner()
          && s.tasks[s.owners[s.tables.inflight[k]]].key == k)
    && (forall t | t in s.tasks && s.tasks[t].LiveOwner() ::
          s.tasks[t].key in s.tables.inflight && s.tables.inflight[s.tasks[t].key] == s.tasks[t].phase.entry)
  }

  /** Joiners wait on, or have returned the result of, an entry of their own key. */
  ghost predicate JoinersSound(s: System) {
    forall t | t in s.tasks && (s.tasks[t].phase.Joined? || (s.tasks[t].phase.Returned? && !s.tasks[t].phase.owner)) ::
      var e := s.tasks[t].phase.entry;
      && e in s.owners && s.owners[e] in s.tasks && s.tasks[s.owners[e]].key == s.tasks[t].key
      && (s.tasks[t].phase.Returned? ==> e in s.tables.published && s.tables.published[e] == Some(s.tasks[t].phase.result))
  }

  ghost predicate Inv(s: System) {
    LeasesSound(s) && EntriesSound(s) && InflightSound(s) && JoinersSound(s)
  }

  const INITIAL: System := System(Tables(map[], map[], {}), map[], map[], map[])

  lemma InitialIsSound()
    ensures Inv(INITIAL)
  {
  }

  // Each part of the invariant, by what a step does to that part alone.

  lemma LeasesUntouched(s: System, v: System, t: TaskId, b: Task)
    requires LeasesSound(s)
    requires v.holders == s.holders && v.tables.held == s.tables.held && v.tasks == s.tasks[t := b]
    requires if t in s.tasks then b.key == s.tasks[t].key && b.HoldsLease() == s.tasks[t].HoldsLease() else !b.HoldsLease()
    ensures LeasesSound(v)
  {
  }

  lemma LeaseTaken(s: System, v: System, t: TaskId, b: Task)
    requires LeasesSound(s) && t in s.tasks && !s.tasks[t].HoldsLease() && b.HoldsLease() && b.key == s.tasks[t].key
    requires b.key.repo !in s.tables.held
    requires v.holders == s.holders[b.key.repo := t] && v.tables.held == s.tables.held + {b.key.repo}
    requires v.tasks == s.tasks[t := b]
    ensures LeasesSound(v)
  {
  }

  lemma LeaseGiven(s: System, v: System, t: TaskId, b: Task)
    requires LeasesSound(s) && t in s.tasks && s.tasks[t].HoldsLease() && !b.HoldsLease() && b.key == s.tasks[t].key
    requires v.holders == s.holders - {b.key.repo} && v.tables.held == s.tables.held - {b.key.repo}
    requires v.tasks == s.tasks[t := b]
    ensures LeasesSound(v)
  {
  }

  lemma LeasesStay(s: System, step: Step)
    requires LeasesSound(s) && Enabled(s, step)
    ensures LeasesSound(Apply(s, step))
  {
    hide LeasesSound;
    var v := Apply(s, step);
    var b := v.tasks[step.task];
    match step
    case TryAcquire(t) =>
      if s.tasks[t].key.repo in s.tables.held { LeasesUntouched(s, v, t, b); } else { LeaseTaken(s, v, t, b); }
    case GiveBack(t) => LeaseGiven(s, v, t, b);
    case _ => LeasesUntouched(s, v, step.task, b);
  }

  lemma EntriesUntouched(s: System, v: System, t: TaskId, b: Task)
    requires EntriesSound(s)
    requires v.owners == s.owners && v.tables.published == s.tables.published && v.tasks == s.tasks[t := b]
    requires if t in s.tasks
             then (forall e :: Owns(b, e) == Owns(s.tasks[t], e)) && (forall e :: Owns(b, e) ==> Told(b.phase) == Told(s.tasks[t].phase))
             else forall e :: !Owns(b, e)
    ensures EntriesSound(v)
  {
  }

  lemma EntryCreated(s: System, v: System, t: TaskId, b: Task, e: EntryId)
    requires EntriesSound(s) && t in s.tasks && (forall x :: !Owns(s.tasks[t], x))
    requires e !in s.tables.published && (forall x :: Owns(b, x) <==> x == e) && Told(b.phase) == None
    requires v.owners == s.owners[e := t] && v.tables.published == s.tables.published[e := None]
    requires v.tasks == s.tasks[t := b]
    ensures EntriesSound(v)
  {
  }

  lemma EntryPublished(s: System, v: System, t: TaskId, b: Task, e: EntryId)
    requires EntriesSound(s) && t in s.tasks && Owns(s.tasks[t], e) && Told(b.phase).Some?
    requires forall x :: (Owns(b, x) <==> x == e) && (Owns(s.tasks[t], x) <==> x == e)
    requires v.owners == s.owners && v.tables.published == s.tables.published[e := Told(b.phase)]
    requires v.tasks == s.tasks[t := b]
    ensures EntriesSound(v)
  {
  }

  lemma EntriesStay(s: System, step: Step)
    requires EntriesSound(s) && Enabled(s, step)
    ensures EntriesSound(Apply(s, step))
  {
    hide EntriesSound;
    var v := Apply(s, step);
    var b := v.tasks[step.task];
    match step
    case Enter(t, next) =>
      if s.tasks[t].key in s.tables.inflight { EntriesUntouched(s, v, t, b); } else { EntryCreated(s, v, t, b, next); }
    case Publish(t) => EntryPublished(s, v, t, b, b.phase.entry);
    case _ => EntriesUntouched(s, v, step.task, b);
  }

  lemma InflightUntouched(s: System, v: System, t: TaskId, b: Task)
    requires InflightSound(s)
    requires v.owners == s.owners && v.tables.inflight == s.tables.inflight && v.tasks == s.tasks[t := b]
    requires if t in s.tasks
             then b.key == s.tasks[t].key && b.LiveOwner() == s.tasks[t].LiveOwner()
                  && (b.LiveOwner() ==> b.phase.entry == s.tasks[t].phase.entry)
             else !b.LiveOwner()
    ensures InflightSound(v)
  {
  }

  lemma InflightAdded(s: System, v: System, t: TaskId, b: Task, e: EntryId)
    requires InflightSound(s) && t in s.tasks && !s.tasks[t].LiveOwner() && b.LiveOwner() && b.phase.entry == e
    requires b.key == s.tasks[t].key && b.key !in s.tables.inflight && e !in s.owners
    requires v.owners == s.owners[e := t] && v.tables.inflight == s.tables.inflight[b.key := e]
    requires v.tasks == s.tasks[t := b]
    ensures InflightSound(v)
  {
  }

  lemma InflightRemoved(s: System, v: System, t: TaskId, b: Task)
    requires InflightSound(s) && EntriesSound(s) && t in s.tasks && s.tasks[t].LiveOwner() && !b.LiveOwner()
    requires b.key == s.tasks[t].key
    requires v.owners == s.owners && v.tables.inflight == s.tables.inflight - {b.key}
    requires v.tasks == s.tasks[t := b]
    ensures InflightSound(v)
  {
    forall k | k in v.tables.inflight
      ensures s.owners[s.tables.inflight[k]] != t
    {
    }
    forall u | u in s.tasks && u != t && s.tasks[u].LiveOwner()
      ensures s.tasks[u].key != b.key
    {
      assert Owns(s.tasks[u], s.tasks[u].phase.entry) && Owns(s.tasks[t], s.tasks[t].phase.entry);
    }
  }

  lemma InflightStays(s: System, step: Step)
    requires InflightSound(s) && EntriesSound(s) && Enabled(s, step)
    ensures InflightSound(Apply(s, step))
  {
    hide InflightSound, EntriesSound;
    var v := Apply(s, step);
    var b := v.tasks[step.task];
    match step
    case Enter(t, next) =>
      if s.tasks[t].key in s.tables.inflight { InflightUntouched(s, v, t, b); } else {
        SameEntries(s);
        InflightAdded(s, v, t, b, next);
      }
    case Remove(t) =>
      RemovesOwn(s, t);
      InflightRemoved(s, v, t, b);
    case _ => InflightUntouched(s, v, step.task, b);
  }

  lemma SameEntries(s: System)
    requires EntriesSound(s)
    ensures s.owners.Keys == s.tables.published.Keys
  {
  }

  /** An owner that removes finds its own entry under its key. */
  lemma RemovesOwn(s: System, t: TaskId)
    requires InflightSound(s) && t in s.tasks && s.tasks[t].LiveOwner()
    ensures s.tables.WithoutEntry(s.tasks[t].key, s.tasks[t].phase.entry).inflight == s.tables.inflight - {s.tasks[t].key}
  {
  }

  predicate Joins(task: Task) {
    task.phase.Joined? || (task.phase.Returned? && !task.phase.owner)
  }

  ghost predicate JoinerSound(s: System, task: Task)
    requires Joins(task)
  {
    var e := task.phase.entry;
    && e in s.owners && s.owners[e] in s.tasks && s.tasks[s.owners[e]].key == task.key
    && (task.phase.Returned? ==> e in s.tables.published && s.tables.published[e] == Some(task.phase.result))
  }

  /** Owners are never forgotten, keys never change, and a published result is never replaced. */
  ghost predicate Grows(s: System, v: System) {
    && (forall t | t in s.tasks :: t in v.tasks && v.tasks[t].key == s.tasks[t].key)
    && (forall e | e in s.owners :: e in v.owners && v.owners[e] == s.owners[e])
    && (forall e | e in s.tables.published && s.tables.published[e].Some? ::
          e in v.tables.published && v.tables.published[e] == s.tables.published[e])
  }

  lemma StepGrows(s: System, step: Step)
    requires EntriesSound(s) && Enabled(s, step)
    ensures Grows(s, Apply(s, step))
  {
    hide EntriesSound;
    SameEntries(s);
    if step.Publish? {
      NotToldYet(s, step.task);
    }
    var v := Apply(s, step);
    assert v.tasks == s.tasks[step.task := v.tasks[step.task]];
    assert v.owners == s.owners || (step.Enter? && v.owners == s.owners[step.next := step.task]);
  }

  lemma NotToldYet(s: System, t: TaskId)
    requires EntriesSound(s) && t in s.tasks && s.tasks[t].phase.Ran?
    ensures var e := s.tasks[t].phase.entry; e in s.tables.published && s.tables.published[e] == None
  {
    assert Owns(s.tasks[t], s.tasks[t].phase.entry);
  }

  lemma JoinerStays(s: System, v: System, task: Task)
    requires Grows(s, v) && Joins(task) && JoinerSound(s, task)
    ensures JoinerSound(v, task)
  {
  }

  lemma JoinersStay(s: System, step: Step)
    requires Inv(s) && Enabled(s, step)
    ensures JoinersSound(Apply(s, step))
  {
    hide LeasesSound, EntriesSound, Grows;
    var v := Apply(s, step);
    StepGrows(s, step);
    forall t | t in v.tasks && Joins(v.tasks[t])
      ensures JoinerSound(v, v.tasks[t])
    {
      if t in s.tasks && v.tasks[t] == s.tasks[t] {
        assert JoinerSound(s, s.tasks[t]);
        JoinerStays(s, v, s.tasks[t]);
      } else {
        assert t == step.task;
        assert JoinerSound(s, v.tasks[t]);
        JoinerStays(s, v, v.tasks[t]);
      }
    }
  }

  /** Every atomic section of every task keeps the whole invariant. */
  lemma StepKeepsInv(s: System, step: Step)
    requires Inv(s) && Enabled(s, step)
    ensures Inv(Apply(s, step)) && Grows(s, Apply(s, step))
  {
    hide LeasesSound, EntriesSound, InflightSound, JoinersSound, Apply;
    LeasesStay(s, step);
    EntriesStay(s, step);
    InflightStays(s, step);
    JoinersStay(s, step);
    StepGrows(s, step);
  }

  // ---------------------------------------------------------------- whole runs

  predicate Runs(s: System, steps: seq<Step>)
    decreases |steps|
  {
    |steps| > 0 ==> Enabled(s, steps[0]) && Runs(Apply(s, steps[0]), steps[1..])
  }

  function After(s: System, steps: seq<Step>): System
    requires Runs(s, steps)
    decreases |steps|
  {
    if |steps| == 0 then s else After(Apply(s, steps[0]), steps[1..])
  }

  lemma {:induction false} RunKeepsInv(s: System, steps: seq<Step>)
    requires Inv(s) && Runs(s, steps)
    ensures Inv(After(s, steps)) && Grows(s, After(s, steps))
    decreases |steps|
  {
    hide Inv, Apply;
    if |steps| > 0 {
      StepKeepsInv(s, steps[0]);
      RunKeepsInv(Apply(s, steps[0]), steps[1..]);
    } else {
      assert Grows(s, s);
    }
  }

  ghost predicate OneExecutorPerRepo(s: System) {
    forall t, u | t in s.tasks && u in s.tasks && s.tasks[t].HoldsLease() && s.tasks[u].HoldsLease()
                  && s.tasks[t].key.repo == s.tasks[u].key.repo :: t == u
  }

  ghost predicate OneLiveOwnerPerKey(s: System) {
    forall t, u | t in s.tasks && u in s.tasks && s.tasks[t].LiveOwner() && s.tasks[u].LiveOwner()
                  && s.tasks[t].key == s.tasks[u].key :: t == u
  }

  /** Some task owns the entry that a joiner is attached to, and has the joiner's key. */
  predicate Serves(s: System, o: TaskId, joiner: Task)
    requires Joins(joiner)
  {
    o in s.tasks && Owns(s.tasks[o], joiner.phase.entry) && s.tasks[o].key == joiner.key
  }

  /** A joiner that has returned, returned what the owner of its key published. */
  ghost predicate JoinersAgree(s: System) {
    forall t | t in s.tasks && s.tasks[t].phase.Returned? && !s.tasks[t].phase.owner ::
      exists o :: Serves(s, o, s.tasks[t]) && Told(s.tasks[o].phase) == Some(s.tasks[t].phase.result)
  }

  /** A joiner that still waits has a result to collect or an owner that is still at work. */
  ghost predicate NoJoinerStranded(s: System) {
    forall t | t in s.tasks && s.tasks[t].phase.Joined? ::
      exists o :: Serves(s, o, s.tasks[t]) && (Told(s.tasks[o].phase).Some? || s.tasks[o].LiveOwner())
  }

  ghost predicate QuietWhenDone(s: System) {
    (forall t | t in s.tasks :: s.tasks[t].phase.Returned?) ==> s.tables.inflight == map[] && s.tables.held == {}
  }

  /** What any number of concurrent updates, interleaved in any way, can rely on. */
  ghost predicate Guarantees(s: System) {
    OneExecutorPerRepo(s) && OneLiveOwnerPerKey(s) && JoinersAgree(s) && NoJoinerStranded(s) && QuietWhenDone(s)
  }

  lemma OwnersDiffer(s: System)
    requires EntriesSound(s) && InflightSound(s)
    ensures OneLiveOwnerPerKey(s)
  {
    forall t, u | t in s.tasks && u in s.tasks && s.tasks[t].LiveOwner() && s.tasks[u].LiveOwner() && s.tasks[t].key == s.tasks[u].key
      ensures t == u
    {
      assert Owns(s.tasks[t], s.tasks[t].phase.entry) && Owns(s.tasks[u], s.tasks[u].phase.entry);
    }
  }

  lemma JoinersServed(s: System)
    requires EntriesSound(s) && JoinersSound(s)
    ensures JoinersAgree(s) && NoJoinerStranded(s)
  {
    forall t | t in s.tasks && Joins(s.tasks[t])
      ensures var o := s.owners[s.tasks[t].phase.entry];
              Serves(s, o, s.tasks[t])
              && s.tables.published[s.tasks[t].phase.entry] == Told(s.tasks[o].phase)
    {
    }
  }

  lemma DoneIsQuiet(s: System)
    requires InflightSound(s) && LeasesSound(s)
    ensures QuietWhenDone(s)
  {
    if s.tables.inflight != map[] {
      var k :| k in s.tables.inflight;
      assert !s.tasks[s.owners[s.tables.inflight[k]]].phase.Returned?;
    }
    if s.tables.held != {} {
      var r :| r in s.tables.held;
      assert !s.tasks[s.holders[r]].phase.Returned?;
    }
  }

  /** The guarantees hold in every state that any interleaving of any tasks reaches. */
  lemma EveryRunGuarantees(steps: seq<Step>)
    requires Runs(INITIAL, steps)
    ensures Guarantees(After(INITIAL, steps))
  {
    hide EntriesSound, JoinersSound, InflightSound, Apply;
    InitialIsSound();
    RunKeepsInv(INITIAL, steps);
    var s := After(INITIAL, steps);
    OwnersDiffer(s);
    JoinersServed(s);
    DoneIsQuiet(s);
  }

  // ------------------------------------------------------- results and executions

  /** A step of a run and the state it was taken in. */
  datatype Moment = Moment(before: System, step: Step)
  {
    predicate Runs(t: TaskId) {
      step.Execute? && step.task == t
    }

    /** The task's executor ended like this while the task held the lease of its repository. */
    predicate Executes(t: TaskId, ending: Execution) {
      && step == Execute(t, ending) && t in before.tasks
      && before.tasks[t].key.repo in before.holders && before.holders[before.tasks[t].key.repo] == t
    }

    /** The task asked for the lease while another task held it. */
    predicate Refuses(t: TaskId) {
      && step == TryAcquire(t) && t in before.tasks
      && before.tasks[t].key.repo in before.holders && before.holders[before.tasks[t].key.repo] != t
    }
  }

  function Moments(s: System, steps: seq<Step>): seq<Moment>
    requires Runs(s, steps)
    decreases |steps|
  {
    if |steps| == 0 then [] else [Moment(s, steps[0])] + Moments(Apply(s, steps[0]), steps[1..])
  }

  predicate Executed(h: seq<Moment>, t: TaskId, ending: Execution) {
    exists m :: m in h && m.Executes(t, ending)
  }

  predicate NeverRan(h: seq<Moment>, t: TaskId) {
    forall m | m in h :: !m.Runs(t)
  }

  predicate Refused(h: seq<Moment>, t: TaskId) {
    exists m :: m in h && m.Refuses(t)
  }

  predicate RanOnce(h: seq<Moment>, t: TaskId) {
    forall i, j | 0 <= i < j < |h| :: !(h[i].Runs(t) && h[j].Runs(t))
  }

  /**
    The result tells how the task's execution ended: an update exactly if it
    succeeded under the lease, an error exactly if it failed with that message or
    panicked, and a busy lease exactly if it never ran, because the lease was held.
  */
  ghost predicate Tells(h: seq<Moment>, t: TaskId, key: UpdateKey, r: Shared) {
    && (r == Ok(Outcome(key, Updated)) <==> Executed(h, t, Succeeds))
    && (forall m :: r == Err(m) <==> Executed(h, t, Fails(m)) || (m == "executor panicked during update" && Executed(h, t, Panics)))
    && (r == Ok(Outcome(key, LeaseBusy)) <==> NeverRan(h, t))
    && (r == Ok(Outcome(key, LeaseBusy)) <==> Refused(h, t))
    && (r.Ok? ==> r.value.key == key)
  }

  /** Owners with a result have earned it in the run so far; no other task has executed anything. */
  ghost predicate Earned(h: seq<Moment>, t: TaskId, task: Task) {
    match task.phase
    case Finishing(_, r) => Tells(h, t, task.key, r)
    case Ran(_, r) => Tells(h, t, task.key, r)
    case Announced(_, r) => Tells(h, t, task.key, r)
    case Returned(_, true, r) => Tells(h, t, task.key, r)
    case _ => NeverRan(h, t) && !Refused(h, t)
  }

  ghost predicate AllEarned(h: seq<Moment>, s: System) {
    && (forall t | t in s.tasks :: Earned(h, t, s.tasks[t]) && RanOnce(h, t))
    && (forall t | t !in s.tasks :: NeverRan(h, t) && !Refused(h, t))
  }

  /** Another task's step changes nothing, nor does one that neither executes nor is refused. */
  lemma OtherMoment(h: seq<Moment>, m: Moment, t: TaskId)
    requires !m.Runs(t) && !m.Refuses(t)
    ensures NeverRan(h + [m], t) == NeverRan(h, t) && Refused(h + [m], t) == Refused(h, t)
    ensures forall e :: Executed(h + [m], t, e) == Executed(h, t, e)
    ensures RanOnce(h, t) ==> RanOnce(h + [m], t)
  {
    assert forall x :: x in h + [m] <==> x in h || x == m;
  }

  lemma StillTells(h: seq<Moment>, m: Moment, t: TaskId, key: UpdateKey, r: Shared)
    requires !m.Runs(t) && !m.Refuses(t) && Tells(h, t, key, r)
    ensures Tells(h + [m], t, key, r)
  {
    hide NeverRan, Refused, Executed;
    OtherMoment(h, m, t);
  }

  lemma StillEarned(h: seq<Moment>, m: Moment, t: TaskId, task: Task)
    requires !m.Runs(t) && !m.Refuses(t) && Earned(h, t, task)
    ensures Earned(h + [m], t, task)
  {
    hide NeverRan, Refused, Executed, Tells;
    OtherMoment(h, m, t);
    match task.phase
    case Finishing(_, r) => StillTells(h, m, t, task.key, r);
    case Ran(_, r) => StillTells(h, m, t, task.key, r);
    case Announced(_, r) => StillTells(h, m, t, task.key, r);
    case Returned(_, owner, r) => if owner { StillTells(h, m, t, task.key, r); }
    case _ =>
  }

  lemma FirstExecution(h: seq<Moment>, m: Moment, t: TaskId, key: UpdateKey, ending: Execution)
    requires NeverRan(h, t) && !Refused(h, t) && m.Executes(t, ending)
    ensures Tells(h + [m], t, key, ResultOf(key, ending)) && RanOnce(h + [m], t)
  {
    assert m in h + [m] && m.Runs(t);
    assert forall x :: x in h + [m] <==> x in h || x == m;
    assert forall e :: Executed(h + [m], t, e) <==> e == ending by {
      forall e
        ensures Executed(h + [m], t, e) <==> e == ending
      {
        if Executed(h + [m], t, e) {
          var x :| x in h + [m] && x.Executes(t, e);
          assert x.Runs(t);
        }
      }
    }
  }

  lemma FirstRefusal(h: seq<Moment>, m: Moment, t: TaskId, key: UpdateKey)
    requires NeverRan(h, t) && m.Refuses(t)
    ensures Tells(h + [m], t, key, Ok(Outcome(key, LeaseBusy)))
  {
    assert m in h + [m];
    assert NeverRan(h + [m], t);
    NothingExecuted(h + [m], t);
  }

  lemma NothingExecuted(h: seq<Moment>, t: TaskId)
    requires NeverRan(h, t)
    ensures forall e :: !Executed(h, t, e)
  {
    assert forall m: Moment, e :: m.Executes(t, e) ==> m.Runs(t);
  }

  /** What a step makes of the acting task's own claim. */
  lemma StepEarns(h: seq<Moment>, s: System, step: Step)
    requires Inv(s) && Enabled(s, step) && AllEarned(h, s)
    ensures Earned(h + [Moment(s, step)], step.task, Apply(s, step).tasks[step.task])
    ensures RanOnce(h + [Moment(s, step)], step.task)
  {
    hide NeverRan, Refused, Executed, RanOnce, Tells, EntriesSound, InflightSound, JoinersSound;
    var m := Moment(s, step);
    var t := step.task;
    match step
    case Execute(_, ending) => FirstExecution(h, m, t, s.tasks[t].key, ending);
    case TryAcquire(_) =>
      if m.Refuses(t) {
        FirstRefusal(h, m, t, s.tasks[t].key);
        OnceRefused(h, m, t);
      } else {
        OtherMoment(h, m, t);
      }
    case Arrive(_, _) =>
      NothingRan(h, t);
      OtherMoment(h, m, t);
    case _ =>
      StillEarned(h, m, t, s.tasks[t]);
      OtherMoment(h, m, t);
  }

  lemma NothingRan(h: seq<Moment>, t: TaskId)
    requires NeverRan(h, t)
    ensures RanOnce(h, t)
  {
  }

  lemma OnceRefused(h: seq<Moment>, m: Moment, t: TaskId)
    requires RanOnce(h, t) && !m.Runs(t)
    ensures RanOnce(h + [m], t)
  {
  }

  lemma StepEarnsAll(h: seq<Moment>, s: System, step: Step)
    requires Inv(s) && Enabled(s, step) && AllEarned(h, s)
    ensures AllEarned(h + [Moment(s, step)], Apply(s, step))
  {
    hide NeverRan, Refused, Executed, RanOnce, Tells, Earned, Inv;
    var m, v := Moment(s, step), Apply(s, step);
    StepEarns(h, s, step);
    assert v.tasks == s.tasks[step.task := v.tasks[step.task]];
    forall t | t != step.task
      ensures if t in v.tasks then Earned(h + [m], t, v.tasks[t]) && RanOnce(h + [m], t)
              else NeverRan(h + [m], t) && !Refused(h + [m], t)
    {
      OtherMoment(h, m, t);
      if t in s.tasks {
        StillEarned(h, m, t, s.tasks[t]);
      }
    }
  }

  lemma {:induction false} RunEarnsAll(h: seq<Moment>, s: System, steps: seq<Step>)
    requires Inv(s) && Runs(s, steps) && AllEarned(h, s)
    ensures AllEarned(h + Moments(s, steps), After(s, steps))
    decreases |steps|
  {
    hide Inv, AllEarned, Apply;
    if |steps| == 0 {
      assert h + Moments(s, steps) == h;
    } else {
      StepKeepsInv(s, steps[0]);
      StepEarnsAll(h, s, steps[0]);
      RunEarnsAll(h + [Moment(s, steps[0])], Apply(s, steps[0]), steps[1..]);
      assert h + [Moment(s, steps[0])] + Moments(Apply(s, steps[0]), steps[1..]) == h + Moments(s, steps);
    }
  }

  /** The task that did the work behind a returned task's result. */
  predicate WorkedFor(s: System, o: TaskId, task: Task)
    requires task.phase.Returned?
  {
    o in s.tasks && Owns(s.tasks[o], task.phase.entry) && s.tasks[o].key == task.key
  }

  /**
    Whoever has returned, owner or joiner, in whatever interleaving, has a result
    that tells how the one execution of the owner of its entry ended.
  */
  lemma ResultsAreEarned(steps: seq<Step>, t: TaskId)
    requires Runs(INITIAL, steps)
    requires var s := After(INITIAL, steps); t in s.tasks && s.tasks[t].phase.Returned?
    ensures var s, h := After(INITIAL, steps), Moments(INITIAL, steps);
            exists o :: WorkedFor(s, o, s.tasks[t]) && (s.tasks[t].phase.owner ==> o == t)
                        && RanOnce(h, o) && Tells(h, o, s.tasks[t].key, s.tasks[t].phase.result)
  {
    hide NeverRan, Refused, Executed, RanOnce, Tells, Apply, InflightSound, LeasesSound;
    var s, h := After(INITIAL, steps), Moments(INITIAL, steps);
    InitialIsSound();
    RunKeepsInv(INITIAL, steps);
    NothingEarned();
    RunEarnsAll([], INITIAL, steps);
    assert [] + h == h;
    var o := if s.tasks[t].phase.owner then t else s.owners[s.tasks[t].phase.entry];
    assert !s.tasks[t].phase.owner ==> JoinerSound(s, s.tasks[t]);
    assert WorkedFor(s, o, s.tasks[t]);
    assert Earned(h, o, s.tasks[o]);
  }

  lemma NothingEarned()
    ensures AllEarned([], INITIAL)
  {
  }

  // ----------------------------------------------------------------- progress

  /** How many steps a task still has before it. */
  function Rank(phase: Phase): nat {
    match phase
    case Fresh => 6
    case Joined(_) => 1
    case Owning(_) => 5
    case Executing(_) => 4
    case Finishing(_, _) => 3
    case Ran(_, _) => 2
    case Announced(_, _) => 1
    case Returned(_, _, _) => 0
  }

  ghost function Work(tasks: map<TaskId, Task>): nat {
    if tasks == map[] then 0
    else
      var t :| t in tasks;
      Rank(tasks[t].phase) + Work(tasks - {t})
  }

  lemma {:induction false} WorkWithout(tasks: map<TaskId, Task>, t: TaskId)
    requires t in tasks
    ensures Work(tasks) == Rank(tasks[t].phase) + Work(tasks - {t})
    decreases |tasks|
  {
    var u :| u in tasks && Work(tasks) == Rank(tasks[u].phase) + Work(tasks - {u});
    if u != t {
      WorkWithout(tasks - {u}, t);
      WorkWithout(tasks - {t}, u);
      assert tasks - {u} - {t} == tasks - {t} - {u};
    }
  }

  lemma WorkMoved(tasks: map<TaskId, Task>, t: TaskId, b: Task)
    requires t in tasks
    ensures Work(tasks[t := b]) == Work(tasks) - Rank(tasks[t].phase) + Rank(b.phase)
  {
    WorkWithout(tasks, t);
    WorkWithout(tasks[t := b], t);
    assert tasks[t := b] - {t} == tasks - {t};
  }

  /** Every step of a task that has arrived uses up work. */
  lemma StepUsesWork(s: System, step: Step)
    requires Enabled(s, step) && !step.Arrive?
    ensures Work(Apply(s, step).tasks) < Work(s.tasks)
  {
    var v := Apply(s, step);
    WorkMoved(s.tasks, step.task, v.tasks[step.task]);
  }

  /** Once arrivals stop, no interleaving goes on for longer than the work there is. */
  lemma {:induction false} RunsAreBounded(s: System, steps: seq<Step>)
    requires Runs(s, steps) && forall step | step in steps :: !step.Arrive?
    ensures |steps| + Work(After(s, steps).tasks) <= Work(s.tasks)
    decreases |steps|
  {
    hide Apply, Work;
    if |steps| > 0 {
      StepUsesWork(s, steps[0]);
      RunsAreBounded(Apply(s, steps[0]), steps[1..]);
    }
  }

  /** An entry id above all that are taken. */
  lemma {:induction false} Unused(taken: set<EntryId>) returns (e: EntryId)
    ensures forall x :: x in taken ==> x < e
    decreases |taken|
  {
    e := 0;
    if taken != {} {
      var x :| x in taken;
      var b := Unused(taken - {x});
      e := if x < b then b else x + 1;
      forall y | y in taken
        ensures y < e
      {
        assert y == x || y in taken - {x};
      }
    }
  }

  /** While some task has not returned, some step of an arrived task is possible: nothing waits for ever. */
  lemma NeverStuck(s: System) returns (step: Step)
    requires Inv(s) && exists t :: t in s.tasks && !s.tasks[t].phase.Returned?
    ensures Enabled(s, step) && !step.Arrive?
  {
    var t :| t in s.tasks && !s.tasks[t].phase.Returned?;
    match s.tasks[t].phase
    case Fresh =>
      var e := Unused(s.tables.published.Keys);
      step := Enter(t, e);
    case Joined(e) =>
      assert JoinerSound(s, s.tasks[t]);
      if s.tables.published[e].Some? {
        step := Wake(t);
      } else {
        step := OwnerStep(s, s.owners[e]);
      }
    case _ => step := OwnerStep(s, t);
  }

  lemma OwnerStep(s: System, t: TaskId) returns (step: Step)
    requires t in s.tasks && s.tasks[t].LiveOwner()
    ensures Enabled(s, step) && !step.Arrive?
  {
    match s.tasks[t].phase
    case Owning(_) => step := TryAcquire(t);
    case Executing(_) => step := Execute(t, Succeeds);
    case Finishing(_, _) => step := GiveBack(t);
    case Ran(_, _) => step := Publish(t);
    case Announced(_, _) => step := Remove(t);
  }
}
