/**
  The per-key rate limit: a map of admission times, pruned as it is read and swept now and
  then, answers as the full history of admissions would.
  */
module SlidingWindow {
  const SWEEP_EVERY := 100

  datatype Admission = Allowed | Refused(retryAfterSeconds: int)

  /** The admissions of `times` still inside the window at `now`. */
  function Recent(times: seq<int>, now: int, windowMs: int): seq<int> {
    if times == [] then []
    else (if now - times[0] < windowMs then [times[0]] else []) + Recent(times[1..], now, windowMs)
  }

  /** `Math.ceil` of milliseconds in seconds. */
  function Seconds(ms: int): int {
    (ms + 999) / 1000
  }

  function AtLeastOne(n: int): int {
    if n < 1 then 1 else n
  }

  /** The answer a key's admissions call for. */
  function Answer(times: seq<int>, max: int, now: int, windowMs: int): Admission {
    var recent := Recent(times, now, windowMs);
    if |recent| >= max then
      var oldest := if recent == [] then now else recent[0];
      Refused(AtLeastOne(Seconds(windowMs - (now - oldest))))
    else Allowed
  }

  function TimesOf(history: map<string, seq<int>>, key: string): seq<int> {
    if key in history then history[key] else []
  }

  /** Every admission there has been, with one more asked for: a refusal adds nothing. */
  function Asked(history: map<string, seq<int>>, key: string, max: int, now: int, windowMs: int)
    : map<string, seq<int>>
  {
    if Answer(TimesOf(history, key), max, now, windowMs).Allowed?
    then history[key := TimesOf(history, key) + [now]]
    else history
  }

  // ------------------------------------------------------------------ admissions in time order

  ghost predicate Ordered(times: seq<int>, now: int) {
    && (forall j, k :: 0 <= j < k < |times| ==> times[j] <= times[k])
    && (forall k :: 0 <= k < |times| ==> times[k] <= now)
  }

  lemma {:induction false} RecentSnoc(times: seq<int>, at: int, now: int, windowMs: int)
    ensures Recent(times + [at], now, windowMs)
            == Recent(times, now, windowMs) + if now - at < windowMs then [at] else []
  {
    if times == [] {
      assert [] + [at] == [at] && [at][1..] == [];
    } else {
      assert (times + [at])[1..] == times[1..] + [at];
      RecentSnoc(times[1..], at, now, windowMs);
    }
  }

  /** What is outside the window now stays outside it. */
  lemma {:induction false} RecentOfRecent(times: seq<int>, now: int, later: int, windowMs: int)
    requires now <= later
    ensures Recent(Recent(times, now, windowMs), later, windowMs) == Recent(times, later, windowMs)
  {
    if times != [] {
      RecentOfRecent(times[1..], now, later, windowMs);
      var tail := Recent(times[1..], now, windowMs);
      if now - times[0] < windowMs {
        assert ([times[0]] + tail)[1..] == tail;
      } else {
        assert [] + tail == tail;
      }
    }
  }

  lemma {:induction false} AllRecent(times: seq<int>, now: int, windowMs: int)
    requires forall k :: 0 <= k < |times| ==> now - times[k] < windowMs
    ensures Recent(times, now, windowMs) == times
  {
    if times != [] {
      AllRecent(times[1..], now, windowMs);
    }
  }

  /** `times` from `cut` on is what is inside the window. */
  ghost predicate CutAt(times: seq<int>, cut: nat, now: int, windowMs: int) {
    && cut <= |times|
    && (forall k :: 0 <= k < cut ==> now - times[k] >= windowMs)
    && (forall k :: cut <= k < |times| ==> now - times[k] < windowMs)
  }

  lemma {:induction false} RecentFromCut(times: seq<int>, cut: nat, now: int, windowMs: int)
    requires CutAt(times, cut, now, windowMs)
    ensures Recent(times, now, windowMs) == times[cut..]
  {
    if cut == 0 {
      AllRecent(times, now, windowMs);
    } else {
      assert now - times[0] >= windowMs;
      RecentFromCut(times[1..], cut - 1, now, windowMs);
      assert times[1..][cut - 1..] == times[cut..];
    }
  }

  function Cut(times: seq<int>, now: int, windowMs: int): (cut: nat)
    requires Ordered(times, now)
    ensures CutAt(times, cut, now, windowMs)
  {
    if times == [] || now - times[|times| - 1] >= windowMs then |times|
    else
      assert forall k :: 0 <= k < |times| - 1 ==> times[..|times| - 1][k] == times[k];
      Cut(times[..|times| - 1], now, windowMs)
  }

  /** In time order, what is inside the window is the tail. */
  lemma RecentIsTail(times: seq<int>, now: int, windowMs: int)
    requires Ordered(times, now)
    ensures var recent := Recent(times, now, windowMs);
      && |recent| <= |times| && recent == times[|times| - |recent|..]
      && (forall k :: 0 <= k < |times| - |recent| ==> now - times[k] >= windowMs)
      && (forall k :: |times| - |recent| <= k < |times| ==> now - times[k] < windowMs)
  {
    RecentFromCut(times, Cut(times, now, windowMs), now, windowMs);
  }

  lemma {:induction false} RecentIsOrdered(times: seq<int>, now: int, windowMs: int)
    requires Ordered(times, now)
    ensures Ordered(Recent(times, now, windowMs), now)
  {
    RecentIsTail(times, now, windowMs);
  }

  /** When the last admission has left the window, all have. */
  lemma NoneRecent(times: seq<int>, now: int, windowMs: int)
    requires Ordered(times, now) && (times == [] || now - times[|times| - 1] >= windowMs)
    ensures Recent(times, now, windowMs) == []
  {
    RecentIsTail(times, now, windowMs);
  }

  // ------------------------------------------------------------------ what the limit promises

  /** Between any admission and the `max`th after it there is a whole window. */
  ghost predicate Spaced(times: seq<int>, max: nat, windowMs: int) {
    forall i :: 0 <= i && i + max < |times| ==> times[i + max] - times[i] >= windowMs
  }

  lemma AdmittedStaysSpaced(times: seq<int>, max: nat, now: int, windowMs: int)
    requires Ordered(times, now) && Spaced(times, max, windowMs) && max >= 1
    requires Answer(times, max, now, windowMs).Allowed?
    ensures Spaced(times + [now], max, windowMs) && Ordered(times + [now], now)
  {
    RecentIsTail(times, now, windowMs);
    var recent := Recent(times, now, windowMs);
    if |times| >= max {
      assert now - times[|times| - max] >= windowMs;
    }
  }

  datatype Call = Call(key: string, max: int, now: int)

  ghost predicate ClockRuns(calls: seq<Call>) {
    forall j, k :: 0 <= j < k < |calls| ==> calls[j].now <= calls[k].now
  }

  /** All the admissions of a run of calls. */
  function Played(calls: seq<Call>, windowMs: int): map<string, seq<int>> {
    if calls == [] then map[]
    else
      var call := calls[|calls| - 1];
      Asked(Played(calls[..|calls| - 1], windowMs), call.key, call.max, call.now, windowMs)
  }

  lemma {:induction false} RunStaysSpaced(calls: seq<Call>, key: string, max: nat, windowMs: int)
    requires ClockRuns(calls) && max >= 1 && forall call :: call in calls && call.key == key ==> call.max == max
    ensures Spaced(TimesOf(Played(calls, windowMs), key), max, windowMs)
    ensures calls != [] ==> Ordered(TimesOf(Played(calls, windowMs), key), calls[|calls| - 1].now)
    ensures calls == [] ==> TimesOf(Played(calls, windowMs), key) == []
  {
    if calls != [] {
      var call := calls[|calls| - 1];
      var earlier := calls[..|calls| - 1];
      RunStaysSpaced(earlier, key, max, windowMs);
      var times := TimesOf(Played(earlier, windowMs), key);
      assert Ordered(times, call.now);
      if call.key == key && Answer(times, max, call.now, windowMs).Allowed? {
        AdmittedStaysSpaced(times, max, call.now, windowMs);
      }
    }
  }

  /** How many of `times` are in the window that begins at `start`. */
  function Within(times: seq<int>, start: int, windowMs: int): nat {
    if times == [] then 0
    else (if start <= times[0] < start + windowMs then 1 else 0) + Within(times[1..], start, windowMs)
  }

  lemma {:induction false} WithinRange(times: seq<int>, start: int, windowMs: int, lo: nat, hi: nat)
    requires lo <= hi <= |times|
    requires forall k :: 0 <= k < |times| && start <= times[k] < start + windowMs ==> lo <= k < hi
    ensures Within(times, start, windowMs) <= hi - lo
  {
    if times != [] {
      var rest := times[1..];
      assert forall k :: 0 <= k < |rest| ==> rest[k] == times[k + 1];
      if lo == 0 {
        if hi == 0 {
          WithinRange(rest, start, windowMs, 0, 0);
        } else {
          WithinRange(rest, start, windowMs, 0, hi - 1);
        }
      } else {
        WithinRange(rest, start, windowMs, lo - 1, hi - 1);
      }
    }
  }

  /** The first of `times` at or after `start`. */
  function FirstFrom(times: seq<int>, start: int): (at: nat)
    ensures at <= |times|
    ensures forall k :: 0 <= k < at ==> times[k] < start
    ensures at < |times| ==> times[at] >= start
  {
    if times == [] || times[0] >= start then 0 else 1 + FirstFrom(times[1..], start)
  }

  /**
    With one limit and a clock that never goes back, no window of the length, wherever it
    begins, holds more than the limit of a key's admissions.
    */
  lemma NoWindowOverfull(calls: seq<Call>, key: string, max: nat, windowMs: int, start: int)
    requires ClockRuns(calls) && max >= 1 && forall call :: call in calls && call.key == key ==> call.max == max
    ensures Within(TimesOf(Played(calls, windowMs), key), start, windowMs) <= max
  {
    RunStaysSpaced(calls, key, max, windowMs);
    var times := TimesOf(Played(calls, windowMs), key);
    var first := FirstFrom(times, start);
    var hi := if first + max < |times| then first + max else |times|;
    assert first + max < |times| ==> times[first + max] - times[first] >= windowMs;
    forall k | 0 <= k < |times| && start <= times[k] < start + windowMs
      ensures first <= k < hi
    {
    }
    WithinRange(times, start, windowMs, first, hi);
  }

  // ------------------------------------------------------------------ the promised wait

  /**
    A refused key that keeps quiet is admitted the promised number of seconds later exactly
    when the admissions over the limit have left the window by then; always, when just the
    limit's number were in it.
    */
  lemma WaitIsEnough(times: seq<int>, max: nat, now: int, windowMs: int)
    requires Ordered(times, now) && max >= 1 && Answer(times, max, now, windowMs).Refused?
    ensures var recent := Recent(times, now, windowMs);
      var back := now + 1000 * Answer(times, max, now, windowMs).retryAfterSeconds;
      && (Answer(times, max, back, windowMs).Allowed? <==> back - recent[|recent| - max] >= windowMs)
      && (|recent| == max ==> Answer(times, max, back, windowMs).Allowed?)
  {
    var recent := Recent(times, now, windowMs);
    var wait := Answer(times, max, now, windowMs).retryAfterSeconds;
    var back := now + 1000 * wait;
    RecentIsTail(times, now, windowMs);
    assert 1000 * wait >= windowMs - (now - recent[0]);
    OrderedLater(times, now, back);
    RecentIsTail(times, back, windowMs);
    assert recent[|recent| - max] == times[|times| - max];
  }

  lemma OrderedLater(times: seq<int>, now: int, later: int)
    requires Ordered(times, now) && now <= later
    ensures Ordered(times, later)
  {
  }

  /** And no whole number of seconds earlier. */
  lemma WaitIsLeast(times: seq<int>, max: nat, now: int, windowMs: int, sooner: nat)
    requires Ordered(times, now) && max >= 1 && Answer(times, max, now, windowMs).Refused?
    requires sooner < Answer(times, max, now, windowMs).retryAfterSeconds
    ensures Answer(times, max, now + 1000 * sooner, windowMs).Refused?
  {
    var recent := Recent(times, now, windowMs);
    var wait := Answer(times, max, now, windowMs).retryAfterSeconds;
    RecentIsTail(times, now, windowMs);
    OrderedLater(times, now, now + 1000 * sooner);
    RecentIsTail(times, now + 1000 * sooner, windowMs);
    assert 1000 * (wait - 1) < windowMs - (now - recent[0]);
    assert times[|times| - |recent|] == recent[0];
  }

  /** With one limit throughout, a refusal always finds just the limit's number in the window. */
  lemma RefusedAtTheLimit(calls: seq<Call>, key: string, max: nat, windowMs: int, now: int)
    requires ClockRuns(calls) && max >= 1 && forall call :: call in calls && call.key == key ==> call.max == max
    requires calls != [] ==> calls[|calls| - 1].now <= now
    requires Answer(TimesOf(Played(calls, windowMs), key), max, now, windowMs).Refused?
    ensures |Recent(TimesOf(Played(calls, windowMs), key), now, windowMs)| == max
  {
    var times := TimesOf(Played(calls, windowMs), key);
    RunStaysSpaced(calls, key, max, windowMs);
    if |Recent(times, now, windowMs)| > max {
      Crowded(times, max, now, windowMs);
    }
  }

  lemma Crowded(times: seq<int>, max: nat, now: int, windowMs: int)
    requires Ordered(times, now) && |Recent(times, now, windowMs)| > max
    ensures !Spaced(times, max, windowMs)
  {
    RecentIsTail(times, now, windowMs);
    var first := |times| - |Recent(times, now, windowMs)|;
    assert times[first + max] - times[first] < windowMs;
  }

  // ------------------------------------------------------------------ the pruned, swept map

  /** From `now` on, `kept` answers for `all`. */
  ghost predicate StandsFor(kept: seq<int>, all: seq<int>, now: int, windowMs: int) {
    Ordered(kept, now) && Ordered(all, now)
    && forall t :: t >= now ==> Recent(kept, t, windowMs) == Recent(all, t, windowMs)
  }

  lemma StandsLater(kept: seq<int>, all: seq<int>, now: int, later: int, windowMs: int)
    requires StandsFor(kept, all, now, windowMs) && now <= later
    ensures StandsFor(kept, all, later, windowMs)
  {
  }

  lemma PrunedStands(kept: seq<int>, all: seq<int>, now: int, windowMs: int)
    requires StandsFor(kept, all, now, windowMs)
    ensures StandsFor(Recent(kept, now, windowMs), all, now, windowMs)
  {
    RecentIsOrdered(kept, now, windowMs);
    forall t | t >= now
      ensures Recent(Recent(kept, now, windowMs), t, windowMs) == Recent(all, t, windowMs)
    {
      RecentOfRecent(kept, now, t, windowMs);
    }
  }

  lemma AdmittedStands(kept: seq<int>, all: seq<int>, now: int, windowMs: int)
    requires StandsFor(kept, all, now, windowMs)
    ensures StandsFor(kept + [now], all + [now], now, windowMs)
  {
    forall t | t >= now
      ensures Recent(kept + [now], t, windowMs) == Recent(all + [now], t, windowMs)
    {
      RecentSnoc(kept, now, t, windowMs);
      RecentSnoc(all, now, t, windowMs);
    }
  }

  /** A key whose last kept admission has expired may be forgotten. */
  lemma SweptStands(kept: seq<int>, all: seq<int>, now: int, windowMs: int)
    requires StandsFor(kept, all, now, windowMs) && (kept == [] || now - kept[|kept| - 1] >= windowMs)
    ensures StandsFor([], all, now, windowMs)
  {
    NoneRecent(kept, now, windowMs);
    forall t | t >= now
      ensures Recent(all, t, windowMs) == []
    {
      RecentOfRecent(kept, now, t, windowMs);
    }
  }

  /** Whether the sweep forgets a key with these admissions. */
  predicate Expired(times: seq<int>, now: int, windowMs: int) {
    times == [] || now - times[|times| - 1] >= windowMs
  }

  class Limiter {
    const windowMs: int
    var admissions: map<string, seq<int>>
    var admitted: nat
    ghost var history: map<string, seq<int>>
    ghost var clock: int

    constructor (windowMs: int, ghost now: int)
      ensures this.windowMs == windowMs && Valid() && history == map[] && clock == now
    {
      this.windowMs := windowMs;
      admissions, admitted, history, clock := map[], 0, map[], now;
    }

    ghost predicate Valid()
      reads this
    {
      forall key :: StandsFor(TimesOf(admissions, key), TimesOf(history, key), clock, windowMs)
    }

    /** The answer the full history gives, however the map has been pruned and swept. */
    method Admit(key: string, max: int, now: int) returns (answer: Admission)
      requires Valid() && clock <= now
      modifies this
      ensures Valid() && clock == now
      ensures answer == Answer(TimesOf(old(history), key), max, now, windowMs)
      ensures history == Asked(old(history), key, max, now, windowMs)
      ensures answer.Allowed? && admitted % SWEEP_EVERY == 0 ==>
                forall k :: k in admissions ==> !Expired(admissions[k], now, windowMs)
      ensures max >= 1 ==> admissions.Keys <= old(admissions).Keys + (if answer.Allowed? then {key} else {})
    {
      ghost var all := TimesOf(history, key);
      hide StandsFor;
      clock := now;
      ClockMoves(old(admissions), history, old(clock), now);
      var recent := Recent(TimesOf(admissions, key), now, windowMs);
      PrunedStands(TimesOf(admissions, key), all, now, windowMs);
      RecentAgrees(TimesOf(admissions, key), all, now, windowMs);
      if |recent| >= max {
        KeyWasThere(admissions, key, now, windowMs);
        admissions := admissions[key := recent];
        KeyChanged(old(admissions), history, admissions, history, key, now);
        var oldest := if |recent| == 0 then now else recent[0];
        return Refused(AtLeastOne(Seconds(windowMs - (now - oldest))));
      }
      AdmittedStands(recent, all, now, windowMs);
      recent := recent + [now];
      admissions := admissions[key := recent];
      history := history[key := all + [now]];
      KeyChanged(old(admissions), old(history), admissions, history, key, now);
      admitted := admitted + 1;
      if admitted % SWEEP_EVERY == 0 {
        Sweep(now);
      }
      return Allowed;
    }

    /** Drops every key with no admission left in its window. */
    method Sweep(now: int)
      requires Valid() && clock == now
      modifies `admissions
      ensures Valid() && admissions.Keys <= old(admissions).Keys
      ensures forall k :: k in admissions <==> k in old(admissions) && !Expired(old(admissions)[k], now, windowMs)
      ensures forall k :: k in admissions ==> admissions[k] == old(admissions)[k]
    {
      hide StandsFor;
      var left := admissions.Keys;
      while left != {}
        invariant Valid() && left <= admissions.Keys <= old(admissions).Keys
        invariant forall k :: k in admissions ==> admissions[k] == old(admissions)[k]
        invariant forall k :: k in old(admissions) && k !in left ==>
                    (k in admissions <==> !Expired(old(admissions)[k], now, windowMs))
        decreases left
      {
        var key :| key in left;
        left := left - {key};
        if Expired(admissions[key], now, windowMs) {
          ghost var before := admissions;
          SweptStands(TimesOf(before, key), TimesOf(history, key), now, windowMs);
          admissions := admissions - {key};
          KeyChanged(before, history, admissions, history, key, now);
        }
      }
    }

    lemma ClockMoves(kept: map<string, seq<int>>, all: map<string, seq<int>>, before: int, now: int)
      requires before <= now
      requires forall key :: StandsFor(TimesOf(kept, key), TimesOf(all, key), before, windowMs)
      ensures forall key :: StandsFor(TimesOf(kept, key), TimesOf(all, key), now, windowMs)
    {
      forall key
        ensures StandsFor(TimesOf(kept, key), TimesOf(all, key), now, windowMs)
      {
        StandsLater(TimesOf(kept, key), TimesOf(all, key), before, now, windowMs);
      }
    }

    lemma KeyChanged(kept: map<string, seq<int>>, all: map<string, seq<int>>, keptNow: map<string, seq<int>>,
                     allNow: map<string, seq<int>>, key: string, now: int)
      requires forall k :: k != key ==> StandsFor(TimesOf(kept, k), TimesOf(all, k), now, windowMs)
      requires forall k :: k != key ==> TimesOf(keptNow, k) == TimesOf(kept, k) && TimesOf(allNow, k) == TimesOf(all, k)
      requires StandsFor(TimesOf(keptNow, key), TimesOf(allNow, key), now, windowMs)
      ensures forall k :: StandsFor(TimesOf(keptNow, k), TimesOf(allNow, k), now, windowMs)
    {
    }
  }

  lemma RecentAgrees(kept: seq<int>, all: seq<int>, now: int, windowMs: int)
    requires StandsFor(kept, all, now, windowMs)
    ensures Recent(kept, now, windowMs) == Recent(all, now, windowMs)
  {
  }

  /** A key with anything in its window is in the map already. */
  lemma KeyWasThere(admissions: map<string, seq<int>>, key: string, now: int, windowMs: int)
    ensures Recent(TimesOf(admissions, key), now, windowMs) != [] ==> key in admissions
  {
  }
}
