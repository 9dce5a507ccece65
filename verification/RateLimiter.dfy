/**
  The fixed-window rate limiter in front of the API, and what it promises about
  intervals that do not line up with its windows.
*/
module RateLimiter {
  /** One minute, in nanoseconds. */
  const WINDOW: nat := 60_000_000_000

  datatype State = State(started: nat, count: nat)

  datatype Admission = Admission(time: nat, window: nat)

  /** The window a check at a given moment falls into. */
  function Current(s: State, now: nat): State {
    if now >= s.started + WINDOW then State(now, 0) else s
  }

  predicate Admits(limit: nat, s: State, now: nat) {
    Current(s, now).count < limit
  }

  /** The state after a check. */
  function Next(limit: nat, s: State, now: nat): State {
    var w := Current(s, now);
    if w.count < limit then w.(count := w.count + 1) else w
  }

  /** The state after checks at the given moments. */
  function After(limit: nat, s: State, times: seq<nat>): State
    decreases |times|
  {
    if times == [] then s else After(limit, Next(limit, s, times[0]), times[1..])
  }

  /** What a single check adds to the log: the moment and the start of its window, if it is admitted. */
  function Logged(limit: nat, s: State, now: nat): seq<Admission> {
    if Admits(limit, s, now) then [Admission(now, Current(s, now).started)] else []
  }

  /** The admitted ones among checks at the given moments. */
  function Admitted(limit: nat, s: State, times: seq<nat>): seq<Admission>
    decreases |times|
  {
    if times == [] then []
    else Logged(limit, s, times[0]) + Admitted(limit, Next(limit, s, times[0]), times[1..])
  }

  lemma {:induction false} OneMoreCheck(limit: nat, s: State, times: seq<nat>, now: nat)
    ensures After(limit, s, times + [now]) == Next(limit, After(limit, s, times), now)
    ensures Admitted(limit, s, times + [now]) == Admitted(limit, s, times) + Logged(limit, After(limit, s, times), now)
    decreases |times|
  {
    hide Next, Logged;
    var more := times + [now];
    if times == [] {
      assert more == [now] && more[1..] == [];
    } else {
      assert more[1..] == times[1..] + [now] && more[0] == times[0];
      OneMoreCheck(limit, Next(limit, s, times[0]), times[1..], now);
    }
  }

  class Limiter {
    const limit: nat
    var state: State
    /** The state at the start, and the moments of all checks since. */
    ghost const initial: State
    ghost var times: seq<nat>

    constructor (limit: nat, now: nat)
      ensures this.limit == limit && initial == State(now, 0) && times == [] && Valid()
    {
      this.limit, state, times := limit, State(now, 0), [];
      initial := State(now, 0);
    }

    ghost predicate Valid()
      reads this
    {
      limit > 0 ==> state == After(limit, initial, times)
    }

    /** A limit of zero admits everything; otherwise the answers are those of the specification. */
    method Check(now: nat) returns (ok: bool)
      requires Valid()
      modifies this
      ensures Valid() && times == old(times) + [now]
      ensures limit == 0 ==> ok
      ensures limit > 0 ==> Admitted(limit, initial, times)
                            == Admitted(limit, initial, old(times)) + if ok then [Admission(now, state.started)] else []
    {
      hide After, Admitted;
      times := times + [now];
      if limit == 0 {
        return true;
      }
      OneMoreCheck(limit, initial, old(times), now);
      if now >= state.started + WINDOW {
        state := State(now, 0);
      }
      if state.count >= limit {
        return false;
      }
      state := state.(count := state.count + 1);
      return true;
    }
  }

  // ------------------------------------------------------------------------ bounds

  ghost predicate Monotone(from: nat, times: seq<nat>) {
    (times != [] ==> from <= times[0]) && forall i, j | 0 <= i < j < |times| :: times[i] <= times[j]
  }

  function InWindow(log: seq<Admission>, window: nat): nat {
    if log == [] then 0 else (if log[0].window == window then 1 else 0) + InWindow(log[1..], window)
  }

  /** How many admissions fall into the minute that begins at t. */
  function InMinute(log: seq<Admission>, t: nat): nat {
    if log == [] then 0 else (if t <= log[0].time < t + WINDOW then 1 else 0) + InMinute(log[1..], t)
  }

  /** Admissions lie inside their windows, and windows start at least a minute apart. */
  ghost predicate Spaced(log: seq<Admission>) {
    && (forall i | 0 <= i < |log| :: log[i].window <= log[i].time < log[i].window + WINDOW)
    && (forall i, j | 0 <= i < j < |log| :: log[i].window == log[j].window || log[i].window + WINDOW <= log[j].window)
  }

  /** What a run from a given window leaves in the log. */
  ghost predicate WithinLimits(log: seq<Admission>, s: State, limit: nat) {
    && Spaced(log)
    && (forall i | 0 <= i < |log| :: log[i].window == s.started || s.started + WINDOW <= log[i].window)
    && (forall w :: InWindow(log, w) <= if w == s.started then limit - s.count else limit)
  }

  /** Each window admits at most the limit. */
  lemma {:induction false} WindowBound(limit: nat, s: State, times: seq<nat>)
    requires limit > 0 && Monotone(s.started, times) && s.count <= limit
    ensures WithinLimits(Admitted(limit, s, times), s, limit)
    decreases |times|
  {
    if times != [] {
      var now := times[0];
      var next := Next(limit, s, now);
      var rest := Admitted(limit, next, times[1..]);
      WindowBound(limit, next, times[1..]);
      hide Admitted, WithinLimits, Monotone;
      if Admits(limit, s, now) {
        OneMoreAdmitted(rest, Current(s, now), now, limit);
      } else {
        assert Logged(limit, s, now) + rest == rest;
      }
      EarlierWindow(Logged(limit, s, now) + rest, s, Current(s, now), limit);
    }
  }

  lemma OneMoreAdmitted(rest: seq<Admission>, w: State, now: nat, limit: nat)
    requires w.started <= now < w.started + WINDOW && w.count < limit
    requires WithinLimits(rest, w.(count := w.count + 1), limit)
    ensures WithinLimits([Admission(now, w.started)] + rest, w, limit)
  {
    var log := [Admission(now, w.started)] + rest;
    assert Spaced(log) by {
      hide InWindow;
      assert forall i | 0 < i < |log| :: log[i] == rest[i - 1];
    }
    assert log[1..] == rest;
    assert forall v :: InWindow(log, v) == (if v == w.started then 1 else 0) + InWindow(rest, v);
    hide InWindow;
  }

  lemma EarlierWindow(log: seq<Admission>, s: State, w: State, limit: nat)
    requires WithinLimits(log, w, limit) && s.count <= limit
    requires w == s || (w.count == 0 && s.started + WINDOW <= w.started)
    ensures WithinLimits(log, s, limit)
  {
    NoneIn(log, s.started, w.started);
    hide InWindow;
  }

  lemma {:induction false} NoneIn(log: seq<Admission>, window: nat, later: nat)
    requires forall i | 0 <= i < |log| :: log[i].window >= later
    ensures window < later ==> InWindow(log, window) == 0
  {
    if log != [] {
      NoneIn(log[1..], window, later);
    }
  }

  lemma {:induction false} MinuteInTwoWindows(log: seq<Admission>, t: nat, a: nat, b: nat)
    requires a != b && forall i | 0 <= i < |log| && t <= log[i].time < t + WINDOW :: log[i].window in {a, b}
    ensures InMinute(log, t) <= InWindow(log, a) + InWindow(log, b)
  {
    if log != [] {
      assert forall i | 0 <= i < |log[1..]| :: log[1..][i] == log[i + 1];
      MinuteInTwoWindows(log[1..], t, a, b);
    }
  }

  /** With a clock that never runs backwards, no minute whatsoever admits more than twice the limit. */
  lemma MinuteBound(limit: nat, s: State, times: seq<nat>, t: nat)
    requires limit > 0 && Monotone(s.started, times) && s.count <= limit
    ensures InMinute(Admitted(limit, s, times), t) <= 2 * limit
  {
    var log := Admitted(limit, s, times);
    WindowBound(limit, s, times);
    assert forall w :: InWindow(log, w) <= limit;
    hide Admitted, InMinute, InWindow;
    var a, b := TwoWindows(log, t);
    MinuteInTwoWindows(log, t, a, b);
  }

  /** A minute meets at most two windows. */
  lemma TwoWindows(log: seq<Admission>, t: nat) returns (a: nat, b: nat)
    requires Spaced(log)
    ensures a != b && forall i | 0 <= i < |log| && t <= log[i].time < t + WINDOW :: log[i].window in {a, b}
  {
    var first := 0;
    while first < |log| && !(t <= log[first].time < t + WINDOW)
      invariant first <= |log|
      invariant forall i | 0 <= i < first :: !(t <= log[i].time < t + WINDOW)
    {
      first := first + 1;
    }
    a := if first < |log| then log[first].window else 0;
    b := a + 1;
    var j := first;
    while j < |log| && !(t <= log[j].time < t + WINDOW && log[j].window != a)
      invariant first <= j <= |log|
      invariant forall i | 0 <= i < j && t <= log[i].time < t + WINDOW :: log[i].window == a
    {
      j := j + 1;
    }
    if j < |log| {
      b := log[j].window;
      assert log[first].window + WINDOW <= log[j].window;
    }
  }

  function Repeat(now: nat, n: nat): (r: seq<nat>)
    ensures |r| == n && forall i | 0 <= i < n :: r[i] == now
  {
    if n == 0 then [] else [now] + Repeat(now, n - 1)
  }

  /** Twice the limit is reached: a full burst at the end of one window and another at the start of the next. */
  lemma BoundIsTight(limit: nat)
    requires limit > 0
    ensures exists times :: Monotone(0, times) && InMinute(Admitted(limit, State(0, 0), times), WINDOW - 1) == 2 * limit
  {
    var late, early := Repeat(WINDOW - 1, limit), Repeat(WINDOW, limit);
    assert Monotone(0, late + early) && early + [] == early;
    NewWindow(limit, early);
    NothingAdmitted(limit, State(WINDOW, limit), WINDOW - 1);
    hide Repeat, Monotone, Admitted, InMinute;
    Burst(limit, State(0, 0), limit, WINDOW - 1, early, WINDOW - 1);
    Burst(limit, State(WINDOW, 0), limit, WINDOW, [], WINDOW - 1);
  }

  lemma NothingAdmitted(limit: nat, s: State, t: nat)
    ensures InMinute(Admitted(limit, s, []), t) == 0
  {
  }

  lemma NewWindow(limit: nat, times: seq<nat>)
    requires times != [] && times[0] == WINDOW
    ensures Admitted(limit, State(0, limit), times) == Admitted(limit, State(WINDOW, 0), times)
  {
  }

  lemma {:induction false} Burst(limit: nat, s: State, n: nat, now: nat, rest: seq<nat>, t: nat)
    requires s.count + n <= limit && s.started <= now < s.started + WINDOW && t <= now < t + WINDOW
    ensures InMinute(Admitted(limit, s, Repeat(now, n) + rest), t)
            == n + InMinute(Admitted(limit, State(s.started, s.count + n), rest), t)
    decreases n
  {
    hide Admitted, InMinute;
    if n == 0 {
      assert Repeat(now, n) + rest == rest;
    } else {
      var s' := State(s.started, s.count + 1);
      var more := Repeat(now, n - 1) + rest;
      assert Repeat(now, n) + rest == [now] + more;
      hide Repeat;
      FirstOfBurst(limit, s, now, [now] + more, more, t);
      Burst(limit, s', n - 1, now, rest, t);
    }
  }

  lemma FirstOfBurst(limit: nat, s: State, now: nat, times: seq<nat>, rest: seq<nat>, t: nat)
    requires times == [now] + rest && s.count < limit && s.started <= now < s.started + WINDOW && t <= now < t + WINDOW
    ensures InMinute(Admitted(limit, s, times), t)
            == 1 + InMinute(Admitted(limit, State(s.started, s.count + 1), rest), t)
  {
    assert times[1..] == rest;
    var log, more := Admitted(limit, s, times), Admitted(limit, State(s.started, s.count + 1), rest);
    assert log == [Admission(now, s.started)] + more;
    hide Admitted;
    assert log[1..] == more;
  }
}
