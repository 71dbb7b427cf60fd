/**
 The per-analyst limiter of AI requests: a pruned deque of timestamps per key and a set of keys in
 flight, against the full history of accepted requests.
 */
module AiRateLimit {
  import opened Text

  datatype Key = Key(tenant: string, analyst: string)

  type Time = real

  const WINDOW: real := 3600.0
  const LIMIT := 20

  datatype State = State(rate: map<Key, seq<Time>>, inFlight: set<Key>)

  function Deque(s: State, key: Key): seq<Time> { if key in s.rate then s.rate[key] else [] }

  /** `popleft` while the oldest timestamp has left the window. */
  function Prune(ts: seq<Time>, now: Time): seq<Time>
  {
    if ts != [] && now - ts[0] >= WINDOW then Prune(ts[1..], now) else ts
  }

  /** `now or time.time()`: a reading of zero handed in counts as none. */
  function Reading(given: Option<Time>, clock: Time): Time
  {
    if given.Some? && given.value != 0.0 then given.value else clock
  }

  function Begin(s: State, key: Key, now: Time): (State, bool)
  {
    if key in s.inFlight then (s, false)
    else
      var kept := Prune(Deque(s, key), now);
      if |kept| >= LIMIT then (s.(rate := s.rate[key := kept]), false)
      else (State(s.rate[key := kept + [now]], s.inFlight + {key}), true)
  }

  function End(s: State, key: Key): State { s.(inFlight := s.inFlight - {key}) }

  class Limiter {
    var rate: map<Key, seq<Time>>
    var inFlight: set<Key>

    constructor ()
      ensures Now() == State(map[], {})
    {
      rate, inFlight := map[], {};
    }

    function Now(): State
      reads this
    {
      State(rate, inFlight)
    }

    /** The locked section of `_begin_ai_request`; false stands for the 429 answer. */
    method BeginRequest(key: Key, given: Option<Time>, clock: Time) returns (accepted: bool)
      modifies this
      ensures (Now(), accepted) == old(Begin(Now(), key, Reading(given, clock)))
    {
      var now := Reading(given, clock);
      if key in inFlight {
        return false;
      }
      var timestamps := if key in rate then rate[key] else [];
      ghost var all := timestamps;
      while timestamps != [] && now - timestamps[0] >= WINDOW
        invariant Prune(timestamps, now) == Prune(all, now)
      {
        timestamps := timestamps[1..];
      }
      rate := rate[key := timestamps];
      if |timestamps| >= LIMIT {
        return false;
      }
      assert rate[key := timestamps + [now]] == old(rate)[key := timestamps + [now]];
      rate := rate[key := timestamps + [now]];
      inFlight := inFlight + {key};
      return true;
    }

    method EndRequest(key: Key)
      modifies this
      ensures Now() == old(End(Now(), key))
    {
      inFlight := inFlight - {key};
    }
  }

  // ------------------------------------------------------------ the full history

  datatype Event = Begun(key: Key, at: Time) | Ended(key: Key)

  type History = seq<Event>

  /** All accepted timestamps of a key, oldest first. */
  function Times(h: History, key: Key): seq<Time>
  {
    if h == [] then []
    else
      var e := h[|h| - 1];
      Times(h[..|h| - 1], key) + (if e.Begun? && e.key == key then [e.at] else [])
  }

  /** The last event of the key is an accepted begin. */
  predicate Open(h: History, key: Key)
  {
    h != [] && (if h[|h| - 1].key == key then h[|h| - 1].Begun? else Open(h[..|h| - 1], key))
  }

  function Young(ts: seq<Time>, now: Time): nat
  {
    if ts == [] then 0 else Young(ts[..|ts| - 1], now) + (if now - ts[|ts| - 1] < WINDOW then 1 else 0)
  }

  /** The rule as it is promised: not in flight, and fewer than 20 acceptances younger than an hour. */
  predicate Promised(h: History, key: Key, now: Time)
  {
    !Open(h, key) && Young(Times(h, key), now) < LIMIT
  }

  datatype Operation = Start(key: Key, now: Time) | Finish(key: Key)

  datatype Trace = Trace(state: State, history: History)

  function Run(ops: seq<Operation>): Trace
  {
    if ops == [] then Trace(State(map[], {}), [])
    else
      var before, op := Run(ops[..|ops| - 1]), ops[|ops| - 1];
      match op
      case Start(key, now) =>
        var (s, accepted) := Begin(before.state, key, now);
        Trace(s, before.history + (if accepted then [Begun(key, now)] else []))
      case Finish(key) => Trace(End(before.state, key), before.history + [Ended(key)])
  }

  /** Clock readings do not decrease in lock order. */
  ghost predicate Nondecreasing(ops: seq<Operation>)
  {
    forall i, j :: 0 <= i < j < |ops| && ops[i].Start? && ops[j].Start? ==> ops[i].now <= ops[j].now
  }

  // ------------------------------------------------------------- the invariant

  ghost predicate Sorted(ts: seq<Time>)
  {
    forall i, j :: 0 <= i < j < |ts| ==> ts[i] <= ts[j]
  }

  /** Any acceptance is a full window after the twentieth before it. */
  ghost predicate Spaced(ts: seq<Time>)
  {
    forall i :: LIMIT <= i < |ts| ==> ts[i] - ts[i - LIMIT] >= WINDOW
  }

  /** The deque is the history without a prefix that had left the window at some reading `clock`. */
  ghost predicate PrunedForm(deque: seq<Time>, ts: seq<Time>, clock: Time)
  {
    && |deque| <= |ts| && ts[|ts| - |deque|..] == deque
    && forall i :: 0 <= i < |ts| - |deque| ==> clock - ts[i] >= WINDOW
  }

  ghost predicate Agrees(deque: seq<Time>, ts: seq<Time>, clock: Time)
  {
    && Sorted(ts) && Spaced(ts) && (forall i :: 0 <= i < |ts| ==> ts[i] <= clock)
    && PrunedForm(deque, ts, clock)
  }

  ghost predicate KeyInv(t: Trace, key: Key, clock: Time)
  {
    Agrees(Deque(t.state, key), Times(t.history, key), clock)
  }

  lemma {:induction false} YoungOfOld(old_: seq<Time>, rest: seq<Time>, now: Time)
    requires forall i :: 0 <= i < |old_| ==> now - old_[i] >= WINDOW
    requires forall i :: 0 <= i < |rest| ==> now - rest[i] < WINDOW
    ensures Young(old_ + rest, now) == |rest|
    decreases |old_| + |rest|
  {
    var ts := old_ + rest;
    if rest != [] {
      assert ts[..|ts| - 1] == old_ + rest[..|rest| - 1];
      YoungOfOld(old_, rest[..|rest| - 1], now);
    } else if old_ != [] {
      assert ts == old_ && ts[..|ts| - 1] == old_[..|old_| - 1] + [];
      YoungOfOld(old_[..|old_| - 1], [], now);
    }
  }

  /** Pruning a sorted sequence removes exactly the timestamps that have left the window. */
  lemma {:induction false} PruneSplits(ts: seq<Time>, now: Time)
    requires Sorted(ts)
    ensures var kept := Prune(ts, now); var d := |ts| - |kept|;
            && d >= 0 && ts[d..] == kept
            && (forall i :: 0 <= i < d ==> now - ts[i] >= WINDOW)
            && (forall i :: d <= i < |ts| ==> now - ts[i] < WINDOW)
  {
    if ts != [] && now - ts[0] >= WINDOW {
      PruneSplits(ts[1..], now);
      var kept := Prune(ts, now);
      var d := |ts| - |kept|;
      assert ts[1..][d - 1..] == ts[d..];
      assert forall i :: 1 <= i < |ts| ==> ts[i] == ts[1..][i - 1];
    }
  }

  /** Dropping the first `c` of the last entries of `ts`, all out of the window, keeps the pruned form. */
  lemma PrunedFurther(deque: seq<Time>, ts: seq<Time>, clock: Time, c: nat, now: Time)
    requires PrunedForm(deque, ts, clock) && clock <= now && c <= |deque|
    requires forall i :: 0 <= i < c ==> now - deque[i] >= WINDOW
    ensures PrunedForm(deque[c..], ts, now)
  {
    var d := |ts| - |deque|;
    var kept := deque[c..];
    assert ts[d..][c..] == ts[d + c..] == kept;
    assert forall i :: d <= i < d + c ==> ts[i] == deque[i - d];
  }

  /** The pruned deque and the full history count the same. */
  lemma PrunedCountsYoung(deque: seq<Time>, ts: seq<Time>, clock: Time, now: Time)
    requires Sorted(ts) && PrunedForm(deque, ts, clock) && clock <= now
    ensures |Prune(deque, now)| == Young(ts, now) && PrunedForm(Prune(deque, now), ts, now)
  {
    hide Prune, Young;
    SuffixSorted(ts, |ts| - |deque|);
    PruneSplits(deque, now);
    var kept := Prune(deque, now);
    var c := |deque| - |kept|;
    PrunedFurther(deque, ts, clock, c, now);
    var old_ := ts[..|ts| - |kept|];
    assert ts == old_ + kept;
    assert forall i :: 0 <= i < |kept| ==> kept[i] == deque[c + i];
    YoungOfOld(old_, kept, now);
  }

  lemma SuffixSorted(ts: seq<Time>, d: nat)
    requires Sorted(ts) && d <= |ts|
    ensures Sorted(ts[d..])
  {
  }

  lemma AcceptKeeps(ts: seq<Time>, kept: seq<Time>, now: Time)
    requires Sorted(ts) && Spaced(ts) && PrunedForm(kept, ts, now) && |kept| < LIMIT
    requires forall i :: 0 <= i < |ts| ==> ts[i] <= now
    ensures Sorted(ts + [now]) && Spaced(ts + [now]) && PrunedForm(kept + [now], ts + [now], now)
  {
    var after := ts + [now];
    var cut := |ts| - |kept|;
    assert after[|after| - |kept + [now]|..] == ts[cut..] + [now];
    assert forall i :: 0 <= i < |ts| ==> after[i] == ts[i];
  }

  lemma TimesAppend(h: History, e: Event, key: Key)
    ensures Times(h + [e], key) == Times(h, key) + (if e.Begun? && e.key == key then [e.at] else [])
  {
    assert (h + [e])[..|h|] == h;
  }

  lemma LaterClock(deque: seq<Time>, ts: seq<Time>, clock: Time, now: Time)
    requires Agrees(deque, ts, clock) && clock <= now
    ensures Agrees(deque, ts, now)
  {
  }

  /** A start under the key itself: the pruned deque agrees, and so does the extended one. */
  lemma OwnStart(deque: seq<Time>, ts: seq<Time>, clock: Time, now: Time)
    requires Agrees(deque, ts, clock) && clock <= now
    ensures Agrees(Prune(deque, now), ts, now)
    ensures |Prune(deque, now)| < LIMIT ==> Agrees(Prune(deque, now) + [now], ts + [now], now)
  {
    PrunedCountsYoung(deque, ts, clock, now);
    hide Prune, Young;
    if |Prune(deque, now)| < LIMIT {
      AcceptKeeps(ts, Prune(deque, now), now);
    }
  }

  lemma StartKeeps(t: Trace, key: Key, now: Time, other: Key, clock: Time)
    requires KeyInv(t, other, clock) && clock <= now
    ensures var (s, accepted) := Begin(t.state, key, now);
            KeyInv(Trace(s, t.history + (if accepted then [Begun(key, now)] else [])), other, now)
  {
    hide Agrees;
    LaterClock(Deque(t.state, other), Times(t.history, other), clock, now);
    assert t.history + [] == t.history;
    TimesAppend(t.history, Begun(key, now), other);
    if other == key {
      OwnStart(Deque(t.state, key), Times(t.history, key), clock, now);
    } else {
      assert Times(t.history, other) + [] == Times(t.history, other);
    }
  }

  lemma FinishKeeps(t: Trace, key: Key, other: Key, clock: Time)
    requires KeyInv(t, other, clock)
    ensures KeyInv(Trace(End(t.state, key), t.history + [Ended(key)]), other, clock)
  {
    hide Agrees, Times;
    TimesAppend(t.history, Ended(key), other);
    assert Times(t.history, other) + [] == Times(t.history, other);
  }

  /** Every run with a clock that does not go back keeps the invariant for every key. */
  lemma {:induction false} RunKeeps(ops: seq<Operation>, key: Key, clock: Time)
    requires Nondecreasing(ops) && forall i :: 0 <= i < |ops| && ops[i].Start? ==> ops[i].now <= clock
    ensures KeyInv(Run(ops), key, clock)
  {
    if ops != [] {
      hide Agrees, Begin;
      var init, op := ops[..|ops| - 1], ops[|ops| - 1];
      assert forall i :: 0 <= i < |init| ==> init[i] == ops[i];
      match op
      case Start(k, now) =>
        RunKeeps(init, key, now);
        StartKeeps(Run(init), k, now, key, now);
        LaterClock(Deque(Run(ops).state, key), Times(Run(ops).history, key), now, clock);
      case Finish(k) =>
        RunKeeps(init, key, clock);
        FinishKeeps(Run(init), k, key, clock);
    }
  }

  lemma {:induction false} InFlightIsOpen(ops: seq<Operation>, key: Key)
    ensures key in Run(ops).state.inFlight <==> Open(Run(ops).history, key)
  {
    if ops != [] {
      var before, after := Run(ops[..|ops| - 1]), Run(ops);
      InFlightIsOpen(ops[..|ops| - 1], key);
      assert after.history != before.history ==> after.history[..|after.history| - 1] == before.history;
    }
  }

  // -------------------------------------------------------------------- results

  /** The limiter decides as promised over the full history, after any run and at any later reading. */
  lemma LimiterDecidesAsPromised(ops: seq<Operation>, key: Key, now: Time)
    requires Nondecreasing(ops + [Start(key, now)])
    ensures Begin(Run(ops).state, key, now).1 <==> Promised(Run(ops).history, key, now)
  {
    var all := ops + [Start(key, now)];
    assert all[|ops|] == Start(key, now) && forall i :: 0 <= i < |ops| ==> all[i] == ops[i];
    RunKeeps(ops, key, now);
    InFlightIsOpen(ops, key);
    PrunedCountsYoung(Deque(Run(ops).state, key), Times(Run(ops).history, key), now, now);
  }

  /** Acceptances in the window of one hour that starts at `lo`. */
  function InWindow(ts: seq<Time>, lo: Time): nat
  {
    if ts == [] then 0
    else InWindow(ts[..|ts| - 1], lo) + (if lo <= ts[|ts| - 1] < lo + WINDOW then 1 else 0)
  }

  lemma {:induction false} OnlyTheLast(ts: seq<Time>, lo: Time, d: nat)
    requires d <= |ts| && forall i :: 0 <= i < d ==> ts[i] < lo
    ensures InWindow(ts, lo) <= |ts| - d
  {
    if ts != [] {
      OnlyTheLast(ts[..|ts| - 1], lo, if d < |ts| then d else d - 1);
    }
  }

  lemma {:induction false} SpacedWindows(ts: seq<Time>, lo: Time)
    requires Sorted(ts) && Spaced(ts)
    ensures InWindow(ts, lo) <= LIMIT
  {
    if ts != [] {
      var last := |ts| - 1;
      if lo <= ts[last] < lo + WINDOW {
        if |ts| > LIMIT {
          assert forall i :: 0 <= i <= last - LIMIT ==> ts[i] <= ts[last - LIMIT];
          OnlyTheLast(ts, lo, last - LIMIT + 1);
        } else {
          OnlyTheLast(ts, lo, 0);
        }
      } else {
        SpacedWindows(ts[..last], lo);
      }
    }
  }

  /** No window of one hour, wherever it starts, holds more than twenty acceptances of a key. */
  lemma AtMostTwentyInAnyWindow(ops: seq<Operation>, key: Key, lo: Time)
    requires Nondecreasing(ops)
    ensures InWindow(Times(Run(ops).history, key), lo) <= LIMIT
  {
    var clock := LastReading(ops);
    RunKeeps(ops, key, clock);
    SpacedWindows(Times(Run(ops).history, key), lo);
  }

  lemma {:induction false} LastReading(ops: seq<Operation>) returns (clock: Time)
    requires Nondecreasing(ops)
    ensures forall i :: 0 <= i < |ops| && ops[i].Start? ==> ops[i].now <= clock
  {
    clock := 0.0;
    if ops != [] {
      var last := ops[|ops| - 1];
      clock := LastReading(ops[..|ops| - 1]);
      if last.Start? {
        clock := last.now;
      }
    }
  }

  /** Accepted sections of one key never overlap: between two begins lies an end. No assumption on
      the clock is needed for this. */
  lemma SectionsDoNotOverlap(ops: seq<Operation>, i: nat, j: nat) returns (k: nat)
    requires var h := Run(ops).history; i < j < |h| && h[i].Begun? && h[j].Begun? && h[i].key == h[j].key
    ensures i < k < j && Run(ops).history[k] == Ended(Run(ops).history[i].key)
  {
    k := AlternationHolds(ops, i, j);
  }

  lemma {:induction false} AlternationHolds(ops: seq<Operation>, i: nat, j: nat) returns (k: nat)
    requires var h := Run(ops).history; i < j < |h| && h[i].Begun? && h[j].Begun? && h[i].key == h[j].key
    ensures i < k < j && Run(ops).history[k] == Ended(Run(ops).history[i].key)
  {
    var init := ops[..|ops| - 1];
    var before, after := Run(init).history, Run(ops).history;
    if j < |before| {
      k := AlternationHolds(init, i, j);
    } else {
      InFlightIsOpen(init, after[j].key);
      k := EndAfter(before, i);
    }
  }

  /** A history that is not open for a key has an end of it after each of its begins. */
  lemma {:induction false} EndAfter(h: History, i: nat) returns (k: nat)
    requires i < |h| && h[i].Begun? && !Open(h, h[i].key)
    ensures i < k < |h| && h[k] == Ended(h[i].key)
  {
    if h[|h| - 1].key == h[i].key {
      k := |h| - 1;
    } else {
      k := EndAfter(h[..|h| - 1], i);
    }
  }

  // ----------------------------------------------- why the clock must not go back

  function Repeat(at: Time, n: nat): seq<Time> { if n == 0 then [] else Repeat(at, n - 1) + [at] }

  /** `n` requests at one reading, each ended before the next begins. */
  function Burst(key: Key, at: Time, n: nat): seq<Operation>
  {
    if n == 0 then [] else Burst(key, at, n - 1) + [Start(key, at), Finish(key)]
  }

  lemma RunAppend(ops: seq<Operation>, op: Operation)
    ensures Run(ops + [op]) ==
              match op
              case Start(key, now) =>
                Trace(Begin(Run(ops).state, key, now).0,
                      Run(ops).history + (if Begin(Run(ops).state, key, now).1 then [Begun(key, now)] else []))
              case Finish(key) => Trace(End(Run(ops).state, key), Run(ops).history + [Ended(key)])
  {
    assert (ops + [op])[..|ops|] == ops;
  }

  /** A request accepted and ended. */
  lemma AcceptedPair(ops: seq<Operation>, key: Key, now: Time)
    requires key !in Run(ops).state.inFlight && |Prune(Deque(Run(ops).state, key), now)| < LIMIT
    ensures var t := Run(ops + [Start(key, now), Finish(key)]);
            && key !in t.state.inFlight
            && Deque(t.state, key) == Prune(Deque(Run(ops).state, key), now) + [now]
            && Times(t.history, key) == Times(Run(ops).history, key) + [now]
  {
    var started := ops + [Start(key, now)];
    assert ops + [Start(key, now), Finish(key)] == started + [Finish(key)];
    RunAppend(ops, Start(key, now));
    RunAppend(started, Finish(key));
    TimesAppend(Run(ops).history, Begun(key, now), key);
    TimesAppend(Run(started).history, Ended(key), key);
    assert Times(Run(started).history, key) + [] == Times(Run(started).history, key);
  }

  lemma {:induction false} RepeatIsConstant(at: Time, n: nat, lo: Time)
    ensures |Repeat(at, n)| == n && (forall i :: 0 <= i < n ==> Repeat(at, n)[i] == at)
    ensures InWindow(Repeat(at, n), lo) == if lo <= at < lo + WINDOW then n else 0
    ensures Prune(Repeat(at, n), at) == Repeat(at, n)
  {
    if n > 0 {
      RepeatIsConstant(at, n - 1, lo);
      assert Repeat(at, n)[..n - 1] == Repeat(at, n - 1);
    }
  }

  lemma {:induction false} BurstFills(key: Key, at: Time, n: nat)
    requires n <= LIMIT
    ensures var t := Run(Burst(key, at, n));
            && key !in t.state.inFlight
            && Deque(t.state, key) == Repeat(at, n) && Times(t.history, key) == Repeat(at, n)
  {
    if n > 0 {
      BurstFills(key, at, n - 1);
      RepeatIsConstant(at, n - 1, at);
      hide Run, Prune;
      AcceptedPair(Burst(key, at, n - 1), key, at);
    }
  }

  lemma InWindowAppend(ts: seq<Time>, t: Time, lo: Time)
    ensures InWindow(ts + [t], lo) == InWindow(ts, lo) + (if lo <= t < lo + WINDOW then 1 else 0)
  {
    assert (ts + [t])[..|ts|] == ts;
  }

  /** Where twenty requests must stand so that the reading `hi` empties the deque. */
  function Before(lo: Time, hi: Time): Time { if lo < hi - WINDOW then lo else hi - WINDOW }

  /** Twenty requests, one at `hi` that empties the deque, and one at `lo`. */
  function StepBack(key: Key, lo: Time, hi: Time): seq<Operation>
  {
    Burst(key, Before(lo, hi), LIMIT) + [Start(key, hi), Finish(key)] + [Start(key, lo), Finish(key)]
  }

  /** Any step back of the clock, however small, lets twenty-one requests into one hour. */
  lemma ClockStepBackBreaksTheWindow(key: Key, lo: Time, hi: Time)
    requires lo < hi
    ensures InWindow(Times(Run(StepBack(key, lo, hi)).history, key), Before(lo, hi)) == LIMIT + 1
  {
    var at := Before(lo, hi);
    var ts := Repeat(at, LIMIT);
    var ops0 := Burst(key, at, LIMIT);
    var ops1 := ops0 + [Start(key, hi), Finish(key)];
    BurstFills(key, at, LIMIT);
    RepeatIsConstant(at, LIMIT, at);
    PruneSplits(ts, hi);
    assert Prune(ts, hi) == [];
    assert Prune([hi], lo) == [hi];
    hide Run, Prune, Burst, Repeat, InWindow;
    AcceptedPair(ops0, key, hi);
    AcceptedPair(ops1, key, lo);
    InWindowAppend(ts, hi, at);
    InWindowAppend(ts + [hi], lo, at);
  }

  /** No reading is more than `d` below an earlier one. */
  ghost predicate StepsBackAtMost(ops: seq<Operation>, d: Time)
  {
    forall i, j :: 0 <= i < j < |ops| && ops[i].Start? && ops[j].Start? ==> ops[j].now >= ops[i].now - d
  }

  /** Twenty an hour for every key, window and run whose readings step back by at most `d`. */
  ghost predicate WindowHolds(d: Time)
  {
    forall ops, key, lo :: StepsBackAtMost(ops, d) ==> InWindow(Times(Run(ops).history, key), lo) <= LIMIT
  }

  lemma {:induction false} BurstReadings(key: Key, at: Time, n: nat)
    ensures forall i :: 0 <= i < |Burst(key, at, n)| && Burst(key, at, n)[i].Start? ==> Burst(key, at, n)[i].now == at
  {
    if n > 0 {
      BurstReadings(key, at, n - 1);
    }
  }

  lemma StepBackReadings(key: Key, lo: Time, hi: Time)
    requires lo < hi
    ensures StepsBackAtMost(StepBack(key, lo, hi), hi - lo)
  {
    BurstReadings(key, Before(lo, hi), LIMIT);
    var burst, ops := Burst(key, Before(lo, hi), LIMIT), StepBack(key, lo, hi);
    hide Burst;
    assert forall i :: 0 <= i < |burst| ==> ops[i] == burst[i];
  }

  /** The promised bound tolerates no step back at all. */
  lemma WindowHoldsExactly(d: Time)
    requires d >= 0.0
    ensures WindowHolds(d) <==> d == 0.0
  {
    if d == 0.0 {
      forall ops, key, lo | StepsBackAtMost(ops, d) ensures InWindow(Times(Run(ops).history, key), lo) <= LIMIT {
        assert Nondecreasing(ops);
        AtMostTwentyInAnyWindow(ops, key, lo);
      }
    } else {
      var key := Key("", "");
      StepBackReadings(key, 0.0, d);
      ClockStepBackBreaksTheWindow(key, 0.0, d);
      hide StepsBackAtMost, StepBack;
      assert !WindowHolds(d);
    }
  }
}
