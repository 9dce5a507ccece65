/**
  The generation head under concurrent publishers and compactors.  Each reads
  the head, and later swaps in its own if the head still is what it read; reads
  and swaps of any number of participants interleave freely, and everyone takes
  timestamps from a clock of its own.
*/
module HeadCas {
  import opened Wrappers

  const MAX_ATTEMPTS: nat := 5

  type Time = int

  datatype Head = Head(generation: nat, updatedAt: Time)

  /** How a publisher's attempts ended. */
  datatype Ending = Won | Outdated | Exhausted

  /** Where a participant stands.  A stamp is the timestamp it will give its head. */
  datatype Participant =
    // publisher: stamp taken, manifest stored, attempting, head read, finished
    | Stamped(mine: Head)
    | Stored(mine: Head, attempt: nat, since: nat)
    | Read(mine: Head, attempt: nat, since: nat, seen: Option<Head>, seenAt: nat)
    | Published(mine: Head, ending: Ending, since: nat)
    // compactor: head read first, stamp taken later, manifest stored, finished
    | Compacting(seen: Option<Head>)
    | Repacked(seen: Option<Head>, mine: Head)
    | Uploaded(seen: Option<Head>, mine: Head)
    | Compacted(mine: Head, swapped: bool)

  datatype World = World(
    head: Option<Head>,
    swaps: nat,
    manifests: set<nat>,
    participants: map<nat, Participant>)

  datatype Step =
    | StartPublish(who: nat, generation: nat, stamp: Time)
    | StartCompact(who: nat)
    | Stamp(who: nat, generation: nat, stamp: Time)
    | Store(who: nat)
    | ReadHead(who: nat)
    | Swap(who: nat)

  predicate Enabled(w: World, step: Step) {
    match step
    case StartPublish(who, _, _) => who !in w.participants
    case StartCompact(who) => who !in w.participants && w.head.Some?
    case Stamp(who, _, _) => who in w.participants && w.participants[who].Compacting?
    case Store(who) => who in w.participants && (w.participants[who].Stamped? || w.participants[who].Repacked?)
    case ReadHead(who) => who in w.participants && w.participants[who].Stored?
    case Swap(who) => who in w.participants && (w.participants[who].Read? || w.participants[who].Uploaded?)
  }

  function Moved(w: World, who: nat, p: Participant): World {
    w.(participants := w.participants[who := p])
  }

  /** A head installed by a compare-and-swap. */
  function Installed(w: World, mine: Head): World {
    w.(head := Some(mine), swaps := w.swaps + 1)
  }

  /** One attempt of the publisher's loop begins by reading; a strictly newer head ends the loop. */
  function AfterRead(w: World, p: Participant): Participant
    requires p.Stored?
  {
    if w.head.Some? && w.head.value.updatedAt > p.mine.updatedAt then Published(p.mine, Outdated, p.since)
    else Read(p.mine, p.attempt, p.since, w.head, w.swaps)
  }

  /** A lost swap uses up an attempt. */
  function AfterLoss(p: Participant): Participant
    requires p.Read?
  {
    if p.attempt + 1 == MAX_ATTEMPTS then Published(p.mine, Exhausted, p.since)
    else Stored(p.mine, p.attempt + 1, p.since)
  }

  function Apply(w: World, step: Step): World
    requires Enabled(w, step)
  {
    match step
    case StartPublish(who, generation, stamp) => Moved(w, who, Stamped(Head(generation, stamp)))
    case StartCompact(who) => Moved(w, who, Compacting(w.head))
    case Stamp(who, generation, stamp) =>
      Moved(w, who, Repacked(w.participants[who].seen, Head(generation, stamp)))
    case Store(who) =>
      var p := w.participants[who];
      var stored := w.(manifests := w.manifests + {p.mine.generation});
      Moved(stored, who, if p.Stamped? then Stored(p.mine, 0, w.swaps) else Uploaded(p.seen, p.mine))
    case ReadHead(who) => Moved(w, who, AfterRead(w, w.participants[who]))
    case Swap(who) =>
      var p := w.participants[who];
      if w.head == p.seen then
        Moved(Installed(w, p.mine), who, if p.Read? then Published(p.mine, Won, p.since) else Compacted(p.mine, true))
      else
        Moved(w, who, if p.Read? then AfterLoss(p) else Compacted(p.mine, false))
  }

  // ---------------------------------------------------------------- invariants

  /** A head at least as new as another, absence being oldest. */
  predicate AtLeast(later: Option<Head>, earlier: Option<Head>) {
    earlier.Some? ==> later.Some? && later.value.updatedAt >= earlier.value.updatedAt
  }

  /** What a participant knows about the store. */
  ghost predicate Sound(w: World, p: Participant) {
    match p
    case Stamped(_) => true
    case Stored(mine, attempt, since) =>
      mine.generation in w.manifests && attempt < MAX_ATTEMPTS && since + attempt <= w.swaps
    case Read(mine, attempt, since, seen, seenAt) =>
      && mine.generation in w.manifests
      && attempt < MAX_ATTEMPTS && since + attempt <= seenAt <= w.swaps
      && AtLeast(Some(mine), seen)
      && (seenAt == w.swaps ==> seen == w.head)
    case Published(mine, ending, since) =>
      mine.generation in w.manifests && (ending == Exhausted ==> since + MAX_ATTEMPTS <= w.swaps)
    case Compacting(seen) => seen.Some?
    case Repacked(seen, _) => seen.Some?
    case Uploaded(seen, mine) => seen.Some? && mine.generation in w.manifests
    case Compacted(mine, _) => mine.generation in w.manifests
  }

  ghost predicate Inv(w: World) {
    && (w.head.Some? ==> w.head.value.generation in w.manifests)
    && forall who | who in w.participants :: Sound(w, w.participants[who])
  }

  /** Manifests and swaps only accumulate, and without a swap the head is the same. */
  ghost predicate Grows(w: World, v: World) {
    && w.manifests <= v.manifests && w.swaps <= v.swaps
    && (w.swaps == v.swaps ==> w.head == v.head)
  }

  /** What was sound of a participant stays sound while the others go on. */
  lemma SoundStays(w: World, v: World, p: Participant)
    requires Sound(w, p) && Grows(w, v)
    ensures Sound(v, p)
  {
  }

  /** A compactor whose clock is behind swaps in a head that is older than the one it read. */
  predicate SetsBack(w: World, step: Step) {
    && step.Swap? && step.who in w.participants
    && var p := w.participants[step.who];
       p.Uploaded? && w.head == p.seen && p.seen.Some? && p.mine.updatedAt < p.seen.value.updatedAt
  }

  /** What the participant that takes a step becomes is sound. */
  lemma ActorStaysSound(w: World, step: Step)
    requires Inv(w) && Enabled(w, step)
    requires step.who in w.participants ==> Sound(w, w.participants[step.who])
    ensures step.who in Apply(w, step).participants && Sound(Apply(w, step), Apply(w, step).participants[step.who])
  {
  }

  /** Every step keeps the invariant, and makes the head older exactly when it sets it back. */
  lemma StepKeepsInv(w: World, step: Step)
    requires Inv(w) && Enabled(w, step)
    ensures Inv(Apply(w, step)) && Grows(w, Apply(w, step))
    ensures AtLeast(Apply(w, step).head, w.head) <==> !SetsBack(w, step)
  {
    var v := Apply(w, step);
    if step.Swap? {
      assert Sound(w, w.participants[step.who]);
    }
    forall who | who in v.participants
      ensures Sound(v, v.participants[who])
    {
      if who == step.who {
        ActorStaysSound(w, step);
      } else {
        assert v.participants[who] == w.participants[who];
        hide Apply, Sound, Grows;
        SoundStays(w, v, w.participants[who]);
      }
    }
  }

  /** Whoever returned successfully sees a head at least as new as its own. */
  ghost predicate Settled(w: World, p: Participant) {
    (p.Published? && p.ending != Exhausted) || (p.Compacted? && p.swapped) ==> AtLeast(w.head, Some(p.mine))
  }

  ghost predicate AllSettled(w: World) {
    forall who | who in w.participants :: Settled(w, w.participants[who])
  }

  lemma StepKeepsSettled(w: World, step: Step)
    requires Inv(w) && AllSettled(w) && Enabled(w, step) && !SetsBack(w, step)
    ensures AllSettled(Apply(w, step))
  {
    var v := Apply(w, step);
    StepKeepsInv(w, step);
    forall who | who in v.participants
      ensures Settled(v, v.participants[who])
    {
      if who != step.who {
        assert v.participants[who] == w.participants[who];
        hide Apply;
        assert Settled(w, w.participants[who]);
      }
    }
  }

  // ---------------------------------------------------------------- whole runs

  predicate Runs(w: World, steps: seq<Step>)
    decreases |steps|
  {
    |steps| > 0 ==> Enabled(w, steps[0]) && Runs(Apply(w, steps[0]), steps[1..])
  }

  function Outcome(w: World, steps: seq<Step>): World
    requires Runs(w, steps)
    decreases |steps|
  {
    if |steps| == 0 then w else Outcome(Apply(w, steps[0]), steps[1..])
  }

  /** No step of the run sets the head back. */
  predicate Steady(w: World, steps: seq<Step>)
    requires Runs(w, steps)
    decreases |steps|
  {
    |steps| > 0 ==> !SetsBack(w, steps[0]) && Steady(Apply(w, steps[0]), steps[1..])
  }

  /** No step of the run leaves an older head than it found. */
  predicate NeverOlder(w: World, steps: seq<Step>)
    requires Runs(w, steps)
    decreases |steps|
  {
    |steps| > 0 ==> AtLeast(Apply(w, steps[0]).head, w.head) && NeverOlder(Apply(w, steps[0]), steps[1..])
  }

  /**
    Over every interleaving the head only ever names a generation whose manifest
    was stored before, and it never gets older exactly when no compactor swaps in
    a head stamped before the one it read.  Publishers may have any clock.
  */
  lemma {:induction false} HeadNeverGetsOlder(w: World, steps: seq<Step>)
    requires Inv(w) && Runs(w, steps)
    ensures var v := Outcome(w, steps);
            && Inv(v) && Grows(w, v)
            && (v.head.Some? ==> v.head.value.generation in v.manifests)
            && (NeverOlder(w, steps) <==> Steady(w, steps))
            && (Steady(w, steps) ==> AtLeast(v.head, w.head))
    decreases |steps|
  {
    if |steps| > 0 {
      StepKeepsInv(w, steps[0]);
      HeadNeverGetsOlder(Apply(w, steps[0]), steps[1..]);
      hide Apply, SetsBack, Enabled, Sound;
    }
  }

  lemma {:induction false} SteadyStaysSettled(w: World, steps: seq<Step>)
    requires Inv(w) && AllSettled(w) && Runs(w, steps) && Steady(w, steps)
    ensures AllSettled(Outcome(w, steps))
    decreases |steps|
  {
    if |steps| > 0 {
      StepKeepsInv(w, steps[0]);
      StepKeepsSettled(w, steps[0]);
      SteadyStaysSettled(Apply(w, steps[0]), steps[1..]);
    }
  }

  lemma {:induction false} RunsInParts(w: World, a: seq<Step>, b: seq<Step>)
    requires Runs(w, a + b)
    ensures Runs(w, a) && Runs(Outcome(w, a), b) && Outcome(w, a + b) == Outcome(Outcome(w, a), b)
    ensures Steady(w, a + b) <==> Steady(w, a) && Steady(Outcome(w, a), b)
    decreases |a|
  {
    hide Apply, Enabled, SetsBack;
    if a == [] {
      assert a + b == b;
    } else {
      assert (a + b)[0] == a[0] && (a + b)[1..] == a[1..] + b;
      RunsInParts(Apply(w, a[0]), a[1..], b);
    }
  }

  /**
    A publisher that returned before using up its attempts left a head at least
    as new as its own, and in a steady run there is one for ever after.  One that
    used them up lost to at least as many swaps by others as it had attempts.
  */
  lemma PublisherGuarantee(w: World, steps: seq<Step>, who: nat)
    requires Inv(w) && AllSettled(w) && Runs(w, steps)
    requires who in w.participants && w.participants[who].Published?
    ensures var p, v := w.participants[who], Outcome(w, steps);
            && (p.ending != Exhausted ==> AtLeast(w.head, Some(p.mine)))
            && (p.ending != Exhausted && Steady(w, steps) ==> AtLeast(v.head, Some(p.mine)))
            && (p.ending == Exhausted ==> p.since + MAX_ATTEMPTS <= w.swaps)
  {
    HeadNeverGetsOlder(w, steps);
    assert Sound(w, w.participants[who]) && Settled(w, w.participants[who]);
  }

  // ------------------------------------------------------------- from the empty store

  const START: World := World(None, 0, {}, map[])

  /**
    In every run from the empty store, at any moment and later: the head names a
    stored manifest, it is not older later on if the run between was steady, and
    in a steady run what a publisher or compactor left is never undone.
  */
  lemma EveryRun(a: seq<Step>, b: seq<Step>)
    requires Runs(START, a + b)
    ensures Runs(START, a) && Runs(Outcome(START, a), b)
    ensures var u, v := Outcome(START, a), Outcome(START, a + b);
            && Inv(u) && Inv(v) && Grows(u, v)
            && (Steady(u, b) ==> AtLeast(v.head, u.head))
            && (Steady(START, a) ==> AllSettled(u))
            && (Steady(START, a + b) ==>
                  forall who | who in u.participants && u.participants[who].Published? && u.participants[who].ending != Exhausted ::
                    AtLeast(v.head, Some(u.participants[who].mine)))
  {
    assert Inv(START) && AllSettled(START);
    RunsInParts(START, a, b);
    HeadNeverGetsOlder(START, a);
    HeadNeverGetsOlder(Outcome(START, a), b);
    if Steady(START, a) {
      SteadyStaysSettled(START, a);
    }
    hide Runs, Outcome, Steady, Sound;
    var u := Outcome(START, a);
    if Steady(START, a + b) {
      forall who | who in u.participants && u.participants[who].Published? && u.participants[who].ending != Exhausted
        ensures AtLeast(Outcome(u, b).head, Some(u.participants[who].mine))
      {
        PublisherGuarantee(u, b, who);
      }
    }
  }

  // ------------------------------------------------------------- what endings tell

  /** A step of a run and the world it was taken in. */
  datatype Moment = Moment(before: World, step: Step)
  {
    /** The participant's compare-and-swap finds the head it had read. */
    predicate Wins(who: nat) {
      && step == Swap(who) && who in before.participants
      && (before.participants[who].Read? || before.participants[who].Uploaded?) && before.head == before.participants[who].seen
    }

    /** It finds another one. */
    predicate Loses(who: nat) {
      && step == Swap(who) && who in before.participants
      && (before.participants[who].Read? || before.participants[who].Uploaded?) && before.head != before.participants[who].seen
    }

    /** The publisher reads a head that is strictly newer than its own. */
    predicate FindsNewer(who: nat) {
      && step == ReadHead(who) && who in before.participants && before.participants[who].Stored?
      && before.head.Some? && before.participants[who].mine.updatedAt < before.head.value.updatedAt
    }
  }

  function Moments(w: World, steps: seq<Step>): seq<Moment>
    requires Runs(w, steps)
    decreases |steps|
  {
    if |steps| == 0 then [] else [Moment(w, steps[0])] + Moments(Apply(w, steps[0]), steps[1..])
  }

  predicate HasWon(h: seq<Moment>, who: nat) {
    exists m :: m in h && m.Wins(who)
  }

  predicate FoundNewer(h: seq<Moment>, who: nat) {
    exists m :: m in h && m.FindsNewer(who)
  }

  function Losses(h: seq<Moment>, who: nat): nat {
    if h == [] then 0 else Losses(h[..|h| - 1], who) + if h[|h| - 1].Loses(who) then 1 else 0
  }

  /** How often a swap installed a head. */
  function Wins(h: seq<Moment>): nat {
    if h == [] then 0 else Wins(h[..|h| - 1]) + if h[|h| - 1].Wins(h[|h| - 1].step.who) then 1 else 0
  }

  /** Where a participant stands tells what its reads and swaps found. */
  ghost predicate Tells(h: seq<Moment>, who: nat, p: Participant) {
    match p
    case Stored(_, attempt, _) => !HasWon(h, who) && !FoundNewer(h, who) && Losses(h, who) == attempt
    case Read(_, attempt, _, _, _) => !HasWon(h, who) && !FoundNewer(h, who) && Losses(h, who) == attempt
    case Published(_, ending, _) =>
      && (ending == Won <==> HasWon(h, who)) && (ending == Outdated <==> FoundNewer(h, who))
      && (ending == Exhausted <==> Losses(h, who) == MAX_ATTEMPTS) && Losses(h, who) <= MAX_ATTEMPTS
    case Compacted(_, swapped) => (swapped <==> HasWon(h, who)) && Losses(h, who) == if swapped then 0 else 1
    case _ => !HasWon(h, who) && !FoundNewer(h, who) && Losses(h, who) == 0
  }

  ghost predicate AllTold(h: seq<Moment>, w: World) {
    && w.swaps == Wins(h)
    && (forall who | who in w.participants :: Tells(h, who, w.participants[who]))
    && (forall who | who !in w.participants :: !HasWon(h, who) && !FoundNewer(h, who) && Losses(h, who) == 0)
  }

  lemma OneMoreMoment(h: seq<Moment>, m: Moment, who: nat)
    ensures HasWon(h + [m], who) <==> HasWon(h, who) || m.Wins(who)
    ensures FoundNewer(h + [m], who) <==> FoundNewer(h, who) || m.FindsNewer(who)
    ensures Losses(h + [m], who) == Losses(h, who) + if m.Loses(who) then 1 else 0
    ensures Wins(h + [m]) == Wins(h) + if m.Wins(m.step.who) then 1 else 0
  {
    assert forall x :: x in h + [m] <==> x in h || x == m;
    assert (h + [m])[..|h|] == h;
  }

  lemma StepTells(h: seq<Moment>, w: World, step: Step)
    requires Inv(w) && Enabled(w, step) && AllTold(h, w)
    ensures AllTold(h + [Moment(w, step)], Apply(w, step))
  {
    hide HasWon, FoundNewer, Losses, Wins;
    var m, v := Moment(w, step), Apply(w, step);
    OneMoreMoment(h, m, step.who);
    ActorTells(h, w, step);
    forall who | who != step.who
      ensures who in v.participants <==> who in w.participants
      ensures who in v.participants ==> Tells(h + [m], who, v.participants[who])
      ensures who !in v.participants ==> !HasWon(h + [m], who) && !FoundNewer(h + [m], who) && Losses(h + [m], who) == 0
    {
      OneMoreMoment(h, m, who);
    }
  }

  lemma ActorTells(h: seq<Moment>, w: World, step: Step)
    requires Inv(w) && Enabled(w, step) && AllTold(h, w)
    ensures var v := Apply(w, step);
            && step.who in v.participants && Tells(h + [Moment(w, step)], step.who, v.participants[step.who])
            && v.swaps == w.swaps + if Moment(w, step).Wins(step.who) then 1 else 0
  {
    hide HasWon, FoundNewer, Losses, Wins;
    OneMoreMoment(h, Moment(w, step), step.who);
    if step.who in w.participants {
      assert Sound(w, w.participants[step.who]) && Tells(h, step.who, w.participants[step.who]);
    }
  }

  lemma {:induction false} RunTells(h: seq<Moment>, w: World, steps: seq<Step>)
    requires Inv(w) && Runs(w, steps) && AllTold(h, w)
    ensures AllTold(h + Moments(w, steps), Outcome(w, steps))
    decreases |steps|
  {
    hide Inv, AllTold, Apply, Enabled;
    if |steps| == 0 {
      assert h + Moments(w, steps) == h;
    } else {
      StepKeepsInv(w, steps[0]);
      StepTells(h, w, steps[0]);
      RunTells(h + [Moment(w, steps[0])], Apply(w, steps[0]), steps[1..]);
      assert h + [Moment(w, steps[0])] + Moments(Apply(w, steps[0]), steps[1..]) == h + Moments(w, steps);
    }
  }

  /**
    In every run from the empty store, whoever has finished says what happened: a
    publisher won exactly if a swap of its own found the head it had read, was
    outdated exactly if it read a strictly newer head, and gave up exactly after
    losing all its attempts; a compactor swapped exactly if its swap found the head
    it had read.  The number of swaps is the number of heads installed.
  */
  lemma EndingsAreTrue(steps: seq<Step>, who: nat)
    requires Runs(START, steps)
    ensures var w, h := Outcome(START, steps), Moments(START, steps);
            && w.swaps == Wins(h)
            && (who in w.participants ==>
                  var p := w.participants[who];
                  && (p.Published? ==>
                        && (p.ending == Won <==> HasWon(h, who)) && (p.ending == Outdated <==> FoundNewer(h, who))
                        && (p.ending == Exhausted <==> Losses(h, who) == MAX_ATTEMPTS))
                  && (p.Compacted? ==> (p.swapped <==> HasWon(h, who))))
  {
    hide HasWon, FoundNewer, Losses, Apply, Enabled;
    assert AllTold([], START) by {
      NothingTold();
    }
    RunTells([], START, steps);
    assert [] + Moments(START, steps) == Moments(START, steps);
    assert who in Outcome(START, steps).participants ==>
        Tells(Moments(START, steps), who, Outcome(START, steps).participants[who]);
  }

  lemma NothingTold()
    ensures AllTold([], START)
  {
  }

  /** A publisher at work, then a compactor whose clock is behind. */
  const PUBLISHING: seq<Step> := [StartPublish(0, 10, 5), Store(0), ReadHead(0), Swap(0)]
  const COMPACTING: seq<Step> := [StartCompact(1), Stamp(1, 11, 3), Store(1), Swap(1)]

  /** The head does get older when a compactor's clock is behind. */
  lemma HeadCanGetOlder()
    ensures Runs(START, PUBLISHING) && Outcome(START, PUBLISHING).head == Some(Head(10, 5))
    ensures var w := Outcome(START, PUBLISHING);
            Runs(w, COMPACTING) && Outcome(w, COMPACTING).head == Some(Head(11, 3))
  {
  }
}
