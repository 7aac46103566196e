/**
 The fixed-window rate limiter keyed by client address. Times are integer nanoseconds of a
 clock that never goes back; floating-point rounding of seconds is not modelled.
 */
module RateLimiter {
  import opened Common

  const SECOND := 1_000_000_000

  datatype Config = Config(limit: int, window: int)

  datatype Bucket = Bucket(count: int, start: int)

  datatype Answer = Answer(allowed: bool, retryAfter: int)

  /** What one call does to the bucket of its address. */
  function Decide(c: Config, b: Option<Bucket>, now: int): (Option<Bucket>, Answer) {
    if c.limit == 0 then (b, Answer(true, 0))
    else if b.None? then (Some(Bucket(1, now)), Answer(true, 0))
    else if now - b.value.start >= c.window then (Some(Bucket(1, now)), Answer(true, 0))
    else if b.value.count < c.limit then (Some(b.value.(count := b.value.count + 1)), Answer(true, 0))
    else
      var seconds := (b.value.start + c.window - now) / SECOND;
      (b, Answer(false, if seconds < 1 then 1 else seconds))
  }

  function Lookup(buckets: map<string, Bucket>, ip: string): Option<Bucket> {
    if ip in buckets then Some(buckets[ip]) else None
  }

  function Store(buckets: map<string, Bucket>, ip: string, b: Option<Bucket>): map<string, Bucket> {
    if b.None? then buckets else buckets[ip := b.value]
  }

  function Cleaned(c: Config, buckets: map<string, Bucket>, now: int): map<string, Bucket> {
    map ip | ip in buckets && !(buckets[ip].start < now - 2 * c.window) :: buckets[ip]
  }

  // ---------------------------------------------------------------------------
  // Traces
  // ---------------------------------------------------------------------------

  datatype Event = Call(ip: string, at: int) | Cleanup(at: int)

  datatype Entry = Entry(ip: string, at: int, answer: Answer)

  /** The answers given to the calls of a trace, in order. */
  function Answers(c: Config, buckets: map<string, Bucket>, events: seq<Event>): seq<Entry>
    decreases |events|
  {
    if events == [] then []
    else
      match events[0]
      case Cleanup(now) => Answers(c, Cleaned(c, buckets, now), events[1..])
      case Call(ip, now) =>
        var (b, answer) := Decide(c, Lookup(buckets, ip), now);
        [Entry(ip, now, answer)] + Answers(c, Store(buckets, ip, b), events[1..])
  }

  /** The clock never goes back, and starts at `now`. */
  predicate ClockFrom(events: seq<Event>, now: int) {
    events == [] || (now <= events[0].at && ClockFrom(events[1..], events[0].at))
  }

  function WithoutCleanups(events: seq<Event>): seq<Event> {
    if events == [] then []
    else if events[0].Call? then [events[0]] + WithoutCleanups(events[1..])
    else WithoutCleanups(events[1..])
  }

  /** The times of one address's own calls. */
  function CallTimes(events: seq<Event>, ip: string): seq<int> {
    if events == [] then []
    else if events[0].Call? && events[0].ip == ip then [events[0].at] + CallTimes(events[1..], ip)
    else CallTimes(events[1..], ip)
  }

  function EntriesOf(entries: seq<Entry>, ip: string): seq<Entry> {
    if entries == [] then []
    else if entries[0].ip == ip then [entries[0]] + EntriesOf(entries[1..], ip)
    else EntriesOf(entries[1..], ip)
  }

  /** A limiter that serves one address and never cleans up. */
  function SoloAnswers(c: Config, ip: string, b: Option<Bucket>, times: seq<int>): seq<Entry>
    decreases |times|
  {
    if times == [] then []
    else
      var (b', answer) := Decide(c, b, times[0]);
      [Entry(ip, times[0], answer)] + SoloAnswers(c, ip, b', times[1..])
  }

  // ---------------------------------------------------------------------------
  // Cleanup is invisible, and addresses do not influence each other
  // ---------------------------------------------------------------------------

  /** An absent bucket may stand for an absent or an expired one. */
  ghost predicate StandsFor(c: Config, kept: Option<Bucket>, full: Option<Bucket>, now: int) {
    && (full.Some? ==> full.value.start <= now)
    && (kept == full || (kept.None? && full.Some? && now - full.value.start >= c.window))
  }

  lemma DecideAgrees(c: Config, kept: Option<Bucket>, full: Option<Bucket>, before: int, now: int)
    requires StandsFor(c, kept, full, before) && before <= now
    ensures Decide(c, kept, now).1 == Decide(c, full, now).1
    ensures StandsFor(c, Decide(c, kept, now).0, Decide(c, full, now).0, now)
  {
  }

  lemma CleanupAgrees(c: Config, buckets: map<string, Bucket>, ip: string, full: Option<Bucket>, before: int, now: int)
    requires StandsFor(c, Lookup(buckets, ip), full, before) && before <= now
    ensures StandsFor(c, Lookup(Cleaned(c, buckets, now), ip), full, now)
  {
  }

  lemma {:induction false} SoloSimulates(c: Config, buckets: map<string, Bucket>, full: Option<Bucket>, events: seq<Event>, ip: string, now: int)
    requires ClockFrom(events, now) && StandsFor(c, Lookup(buckets, ip), full, now)
    ensures EntriesOf(Answers(c, buckets, events), ip) == SoloAnswers(c, ip, full, CallTimes(events, ip))
    decreases |events|
  {
    if events != [] {
      match events[0]
      case Cleanup(at) =>
        CleanupAgrees(c, buckets, ip, full, now, at);
        SoloSimulates(c, Cleaned(c, buckets, at), full, events[1..], ip, at);
      case Call(other, at) =>
        var (b, answer) := Decide(c, Lookup(buckets, other), at);
        var rest := Answers(c, Store(buckets, other, b), events[1..]);
        assert ([Entry(other, at, answer)] + rest)[1..] == rest;
        if other == ip {
          DecideAgrees(c, Lookup(buckets, ip), full, now, at);
          SoloSimulates(c, Store(buckets, ip, b), Decide(c, full, at).0, events[1..], ip, at);
          assert CallTimes(events, ip)[1..] == CallTimes(events[1..], ip);
        } else {
          SoloSimulates(c, Store(buckets, other, b), full, events[1..], ip, at);
        }
    }
  }

  /** The answers an address gets depend on its own calls alone: other addresses and cleanups do not matter. */
  lemma AnswersDependOnOwnCalls(c: Config, events: seq<Event>, ip: string, now: int)
    requires ClockFrom(events, now)
    ensures EntriesOf(Answers(c, map[], events), ip) == SoloAnswers(c, ip, None, CallTimes(events, ip))
  {
    SoloSimulates(c, map[], None, events, ip, now);
  }

  lemma {:induction false} CleanupSimulates(c: Config, kept: map<string, Bucket>, full: map<string, Bucket>, events: seq<Event>, now: int)
    requires ClockFrom(events, now) && forall ip :: StandsFor(c, Lookup(kept, ip), Lookup(full, ip), now)
    ensures Answers(c, kept, events) == Answers(c, full, WithoutCleanups(events))
    decreases |events|
  {
    if events != [] {
      var tail, at := events[1..], events[0].at;
      if events[0].Cleanup? {
        forall ip ensures StandsFor(c, Lookup(Cleaned(c, kept, at), ip), Lookup(full, ip), at) {
          CleanupAgrees(c, kept, ip, Lookup(full, ip), now, at);
        }
        CleanupSimulates(c, Cleaned(c, kept, at), full, tail, at);
      } else {
        var ip := events[0].ip;
        DecideAgrees(c, Lookup(kept, ip), Lookup(full, ip), now, at);
        var kept', full' := Store(kept, ip, Decide(c, Lookup(kept, ip), at).0), Store(full, ip, Decide(c, Lookup(full, ip), at).0);
        forall q ensures StandsFor(c, Lookup(kept', q), Lookup(full', q), at) {
          assert q != ip ==> StandsFor(c, Lookup(kept, q), Lookup(full, q), now);
        }
        CleanupSimulates(c, kept', full', tail, at);
        assert WithoutCleanups(events)[1..] == WithoutCleanups(tail);
      }
    }
  }

  /** Cleanups anywhere in a run change no answer. */
  lemma CleanupIsInvisible(c: Config, events: seq<Event>, now: int)
    requires ClockFrom(events, now)
    ensures Answers(c, map[], events) == Answers(c, map[], WithoutCleanups(events))
  {
    CleanupSimulates(c, map[], map[], events, now);
  }

  // ---------------------------------------------------------------------------
  // Rate bounds
  // ---------------------------------------------------------------------------

  /** A negative limit still lets the first call of every window through. */
  function PerWindow(c: Config): int {
    if c.limit < 1 then 1 else c.limit
  }

  /** How many entries with `lo <= at <= hi` were allowed. */
  function AllowedIn(entries: seq<Entry>, lo: int, hi: int): nat {
    if entries == [] then 0
    else (if entries[0].answer.allowed && lo <= entries[0].at <= hi then 1 else 0) + AllowedIn(entries[1..], lo, hi)
  }

  predicate Ascending(times: seq<int>, from: int) {
    times == [] || (from <= times[0] && Ascending(times[1..], times[0]))
  }

  predicate GoodBucket(c: Config, b: Bucket) {
    1 <= b.count <= PerWindow(c)
  }

  lemma DecideKeepsGood(c: Config, b: Option<Bucket>, now: int)
    requires c.limit != 0 && (b.Some? ==> GoodBucket(c, b.value))
    ensures Decide(c, b, now).0.Some? && GoodBucket(c, Decide(c, b, now).0.value)
  {
  }

  lemma SoloUnfold(c: Config, ip: string, b: Option<Bucket>, times: seq<int>, lo: int, hi: int)
    requires times != []
    ensures var (b', answer) := Decide(c, b, times[0]);
      AllowedIn(SoloAnswers(c, ip, b, times), lo, hi) ==
        (if answer.allowed && lo <= times[0] <= hi then 1 else 0) + AllowedIn(SoloAnswers(c, ip, b', times[1..]), lo, hi)
  {
    var (b', answer) := Decide(c, b, times[0]);
    assert ([Entry(ip, times[0], answer)] + SoloAnswers(c, ip, b', times[1..]))[1..] == SoloAnswers(c, ip, b', times[1..]);
  }

  lemma {:induction false} NoneAfter(c: Config, ip: string, b: Option<Bucket>, times: seq<int>, from: int, lo: int, hi: int)
    requires Ascending(times, from) && hi < from
    ensures AllowedIn(SoloAnswers(c, ip, b, times), lo, hi) == 0
    decreases |times|
  {
    if times != [] {
      SoloUnfold(c, ip, b, times, lo, hi);
      NoneAfter(c, ip, Decide(c, b, times[0]).0, times[1..], times[0], lo, hi);
    }
  }

  /** While the current window covers everything up to `hi`, only its remaining places can be used. */
  lemma {:induction false} RestOfWindow(c: Config, ip: string, b: Bucket, times: seq<int>, from: int, lo: int, hi: int)
    requires c.limit != 0 && GoodBucket(c, b) && Ascending(times, from) && hi < b.start + c.window
    ensures AllowedIn(SoloAnswers(c, ip, Some(b), times), lo, hi) <= PerWindow(c) - b.count
    decreases |times|
  {
    if times != [] {
      SoloUnfold(c, ip, Some(b), times, lo, hi);
      DecideKeepsGood(c, Some(b), times[0]);
      var b' := Decide(c, Some(b), times[0]).0;
      if times[0] <= hi {
        RestOfWindow(c, ip, b'.value, times[1..], times[0], lo, hi);
      } else {
        NoneAfter(c, ip, b', times[1..], times[0], lo, hi);
      }
    }
  }

  /** Once the current window reaches past `lo`, at most one further window fits into `lo..lo+window`. */
  lemma {:induction false} OneMoreWindow(c: Config, ip: string, b: Bucket, times: seq<int>, from: int, lo: int)
    requires c.limit != 0 && c.window > 0 && GoodBucket(c, b) && Ascending(times, from) && lo < b.start + c.window
    ensures AllowedIn(SoloAnswers(c, ip, Some(b), times), lo, lo + c.window) <= 2 * PerWindow(c) - b.count
    decreases |times|
  {
    if times != [] {
      SoloUnfold(c, ip, Some(b), times, lo, lo + c.window);
      DecideKeepsGood(c, Some(b), times[0]);
      var b' := Decide(c, Some(b), times[0]).0.value;
      if times[0] - b.start >= c.window {
        RestOfWindow(c, ip, b', times[1..], times[0], lo, lo + c.window);
      } else {
        OneMoreWindow(c, ip, b', times[1..], times[0], lo);
      }
    }
  }

  lemma {:induction false} TwoWindows(c: Config, ip: string, b: Option<Bucket>, times: seq<int>, from: int, lo: int)
    requires c.limit != 0 && c.window > 0 && (b.Some? ==> GoodBucket(c, b.value)) && Ascending(times, from)
    ensures AllowedIn(SoloAnswers(c, ip, b, times), lo, lo + c.window) <= 2 * PerWindow(c)
    decreases |times|
  {
    if b.Some? && lo < b.value.start + c.window {
      OneMoreWindow(c, ip, b.value, times, from, lo);
    } else if times != [] {
      SoloUnfold(c, ip, b, times, lo, lo + c.window);
      DecideKeepsGood(c, b, times[0]);
      var b' := Decide(c, b, times[0]).0;
      if times[0] < lo {
        TwoWindows(c, ip, b', times[1..], times[0], lo);
      } else {
        OneMoreWindow(c, ip, b'.value, times[1..], times[0], lo);
      }
    }
  }

  lemma {:induction false} CallTimesAscend(events: seq<Event>, ip: string, from: int)
    requires ClockFrom(events, from)
    ensures Ascending(CallTimes(events, ip), from)
    decreases |events|
  {
    if events != [] {
      CallTimesAscend(events[1..], ip, events[0].at);
      if events[0].Call? && events[0].ip == ip {
        assert CallTimes(events, ip)[1..] == CallTimes(events[1..], ip);
      } else {
        LaterAscends(CallTimes(events, ip), from, events[0].at);
      }
    }
  }

  lemma LaterAscends(times: seq<int>, from: int, later: int)
    requires Ascending(times, later) && from <= later
    ensures Ascending(times, from)
  {
  }

  /**
   In any run with calls of other addresses and cleanups, any closed interval of the window's length holds
   at most twice the limit of allowed calls of one address.
   */
  lemma RateBound(c: Config, events: seq<Event>, ip: string, now: int, lo: int)
    requires c.limit != 0 && c.window > 0 && ClockFrom(events, now)
    ensures AllowedIn(EntriesOf(Answers(c, map[], events), ip), lo, lo + c.window) <= 2 * (if c.limit < 1 then 1 else c.limit)
  {
    AnswersDependOnOwnCalls(c, events, ip, now);
    CallTimesAscend(events, ip, now);
    TwoWindows(c, ip, None, CallTimes(events, ip), now, lo);
  }

  /** From the call that opens a window until the window ends, at most the limit is allowed, that call included. */
  lemma WindowBound(c: Config, ip: string, b: Option<Bucket>, times: seq<int>)
    requires c.limit != 0 && times != [] && Ascending(times, times[0])
    requires b.None? || times[0] - b.value.start >= c.window
    ensures AllowedIn(SoloAnswers(c, ip, b, times), times[0], times[0] + c.window - 1) <= (if c.limit < 1 then 1 else c.limit)
  {
    SoloUnfold(c, ip, b, times, times[0], times[0] + c.window - 1);
    RestOfWindow(c, ip, Bucket(1, times[0]), times[1..], times[0], times[0], times[0] + c.window - 1);
  }

  /** A burst of calls that the window still has places for is allowed throughout. */
  lemma {:induction false} Burst(c: Config, ip: string, b: Bucket, n: nat, at: int, rest: seq<int>, lo: int, hi: int)
    requires c.limit > 0 && b.count + n <= c.limit && lo <= at <= hi && at - b.start < c.window
    ensures AllowedIn(SoloAnswers(c, ip, Some(b), seq(n, _ => at) + rest), lo, hi)
      == n + AllowedIn(SoloAnswers(c, ip, Some(b.(count := b.count + n)), rest), lo, hi)
    decreases n
  {
    var times := seq(n, _ => at) + rest;
    if n == 0 {
      assert times == rest && b.(count := b.count + 0) == b;
    } else {
      assert times[0] == at && times[1..] == seq(n - 1, _ => at) + rest;
      SoloUnfold(c, ip, Some(b), times, lo, hi);
      Burst(c, ip, b.(count := b.count + 1), n - 1, at, rest, lo, hi);
    }
  }

  /** The bound is sharp: a full window at time 0 and another one window later. */
  lemma RateBoundIsReached(c: Config, ip: string)
    requires c.limit > 0 && c.window > 0
    ensures var times := [0] + (seq(c.limit - 1, _ => 0) + ([c.window] + (seq(c.limit - 1, _ => c.window) + [])));
      AllowedIn(SoloAnswers(c, ip, None, times), 0, c.window) == 2 * c.limit
  {
    var second := [c.window] + (seq(c.limit - 1, _ => c.window) + []);
    var first := seq(c.limit - 1, _ => 0) + second;
    SoloUnfold(c, ip, None, [0] + first, 0, c.window);
    assert ([0] + first)[1..] == first;
    Burst(c, ip, Bucket(1, 0), c.limit - 1, 0, second, 0, c.window);
    SoloUnfold(c, ip, Some(Bucket(c.limit, 0)), second, 0, c.window);
    assert second[1..] == seq(c.limit - 1, _ => c.window) + [];
    Burst(c, ip, Bucket(1, c.window), c.limit - 1, c.window, [], 0, c.window);
  }

  // ---------------------------------------------------------------------------
  // Which calls are allowed
  // ---------------------------------------------------------------------------

  /** The call that opened the window of call `i`: windows start at a call, and a call that comes too late for one opens the next. */
  function Opener(times: seq<int>, window: int, i: nat): (r: nat)
    requires i < |times|
    ensures r <= i
  {
    if i == 0 || times[i] - times[Opener(times, window, i - 1)] >= window then i else Opener(times, window, i - 1)
  }

  function BucketBefore(c: Config, b: Option<Bucket>, times: seq<int>, i: nat): Option<Bucket>
    requires i <= |times|
  {
    if i == 0 then b else Decide(c, BucketBefore(c, b, times, i - 1), times[i - 1]).0
  }

  lemma {:induction false} BucketShift(c: Config, b: Option<Bucket>, times: seq<int>, i: nat)
    requires 0 < i <= |times|
    ensures BucketBefore(c, b, times, i) == BucketBefore(c, Decide(c, b, times[0]).0, times[1..], i - 1)
  {
    if i > 1 {
      BucketShift(c, b, times, i - 1);
    }
  }

  lemma {:induction false} SoloAnswerAt(c: Config, ip: string, b: Option<Bucket>, times: seq<int>, i: nat)
    requires i < |times|
    ensures |SoloAnswers(c, ip, b, times)| == |times|
    ensures SoloAnswers(c, ip, b, times)[i] == Entry(ip, times[i], Decide(c, BucketBefore(c, b, times, i), times[i]).1)
    decreases |times|
  {
    if |times| > 1 {
      SoloAnswerAt(c, ip, Decide(c, b, times[0]).0, times[1..], if i == 0 then 0 else i - 1);
    }
    if i > 0 {
      BucketShift(c, b, times, i);
    }
  }

  /** The bucket counts the calls since its window was opened, up to the limit. */
  lemma {:induction false} BucketTracksWindow(c: Config, times: seq<int>, i: nat)
    requires c.limit != 0 && i < |times|
    ensures var opener := Opener(times, c.window, i); var calls := i - opener + 1;
      BucketBefore(c, None, times, i + 1) == Some(Bucket(if calls < PerWindow(c) then calls else PerWindow(c), times[opener]))
  {
    if i > 0 {
      BucketTracksWindow(c, times, i - 1);
    }
  }

  lemma SoloAllowedExactlyWhen(c: Config, ip: string, times: seq<int>, i: nat)
    requires c.limit != 0 && c.window > 0 && i < |times|
    ensures |SoloAnswers(c, ip, None, times)| == |times|
    ensures SoloAnswers(c, ip, None, times)[i].answer.allowed <==> i - Opener(times, c.window, i) < PerWindow(c)
  {
    SoloAnswerAt(c, ip, None, times, i);
    if i > 0 {
      BucketTracksWindow(c, times, i - 1);
    }
  }

  /** In any run with other addresses and cleanups, a call is allowed exactly when it is among the first `limit` of its window. */
  lemma AllowedExactlyWhen(c: Config, events: seq<Event>, ip: string, now: int, i: nat)
    requires c.limit != 0 && c.window > 0 && ClockFrom(events, now) && i < |CallTimes(events, ip)|
    ensures |EntriesOf(Answers(c, map[], events), ip)| == |CallTimes(events, ip)|
    ensures EntriesOf(Answers(c, map[], events), ip)[i].answer.allowed <==>
      i - Opener(CallTimes(events, ip), c.window, i) < (if c.limit < 1 then 1 else c.limit)
  {
    AnswersDependOnOwnCalls(c, events, ip, now);
    SoloAllowedExactlyWhen(c, ip, CallTimes(events, ip), i);
  }

  /** With limit zero the limiter is off: every call is allowed, and told to wait for nothing. */
  lemma {:induction false} DisabledAllowsAll(c: Config, buckets: map<string, Bucket>, events: seq<Event>, i: nat)
    requires c.limit == 0 && i < |Answers(c, buckets, events)|
    ensures Answers(c, buckets, events)[i].answer == Answer(true, 0)
    decreases |events|
  {
    match events[0]
    case Cleanup(now) => DisabledAllowsAll(c, Cleaned(c, buckets, now), events[1..], i);
    case Call(ip, now) =>
      var (b, answer) := Decide(c, Lookup(buckets, ip), now);
      if i > 0 {
        assert Answers(c, buckets, events)[i] == Answers(c, Store(buckets, ip, b), events[1..])[i - 1];
        DisabledAllowsAll(c, Store(buckets, ip, b), events[1..], i - 1);
      }
  }

  /** Each answer goes with one call, in order. */
  lemma {:induction false} AnswersAreForCalls(c: Config, buckets: map<string, Bucket>, events: seq<Event>)
    ensures |Answers(c, buckets, events)| == |WithoutCleanups(events)|
    ensures forall i :: 0 <= i < |WithoutCleanups(events)| ==>
      WithoutCleanups(events)[i] == Call(Answers(c, buckets, events)[i].ip, Answers(c, buckets, events)[i].at)
    decreases |events|
  {
    if events != [] {
      match events[0]
      case Cleanup(now) => AnswersAreForCalls(c, Cleaned(c, buckets, now), events[1..]);
      case Call(ip, now) =>
        var (b, answer) := Decide(c, Lookup(buckets, ip), now);
        AnswersAreForCalls(c, Store(buckets, ip, b), events[1..]);
    }
  }

  // ---------------------------------------------------------------------------
  // Retry-After
  // ---------------------------------------------------------------------------

  ghost predicate Denied(c: Config, b: Bucket, now: int) {
    !Decide(c, Some(b), now).1.allowed
  }

  /** A denial asks for at least one second, and one second more than it asks for is always enough. */
  lemma RetryAfterSuffices(c: Config, b: Bucket, now: int, later: int)
    requires Denied(c, b, now)
    requires later >= now + (Decide(c, Some(b), now).1.retryAfter + 1) * SECOND
    ensures Decide(c, Some(b), now).1.retryAfter >= 1 && Decide(c, Some(b), now).0 == Some(b)
    ensures Decide(c, Some(b), later).1.allowed
  {
  }

  /** A denied call is told the whole seconds that are left of its window, and one second if fewer than one is left. */
  lemma DeniedIsToldTheRest(c: Config, events: seq<Event>, ip: string, now: int, i: nat)
    requires c.window > 0 && ClockFrom(events, now) && i < |CallTimes(events, ip)|
    ensures |EntriesOf(Answers(c, map[], events), ip)| == |CallTimes(events, ip)|
    ensures var times, entry := CallTimes(events, ip), EntriesOf(Answers(c, map[], events), ip)[i];
      !entry.answer.allowed ==>
        var left := times[Opener(times, c.window, i)] + c.window - times[i];
        left > 0 && entry.answer.retryAfter == if left < 1_000_000_000 then 1 else left / 1_000_000_000
  {
    var times := CallTimes(events, ip);
    AnswersDependOnOwnCalls(c, events, ip, now);
    SoloAnswerAt(c, ip, None, times, i);
    if c.limit != 0 && i > 0 {
      BucketTracksWindow(c, times, i - 1);
    }
  }

  /**
   In any run with other addresses and cleanups: when a call is denied, it is told to wait at least one
   second, and if the address's next call comes one second more than that later, it is allowed.
   */
  lemma DeniedThenGranted(c: Config, events: seq<Event>, ip: string, now: int, i: nat)
    requires ClockFrom(events, now) && i + 1 < |CallTimes(events, ip)|
    ensures |EntriesOf(Answers(c, map[], events), ip)| == |CallTimes(events, ip)|
    ensures var entries := EntriesOf(Answers(c, map[], events), ip);
      !entries[i].answer.allowed ==>
        && entries[i].answer.retryAfter >= 1
        && (entries[i + 1].at >= entries[i].at + (entries[i].answer.retryAfter + 1) * SECOND ==> entries[i + 1].answer.allowed)
  {
    var times := CallTimes(events, ip);
    AnswersDependOnOwnCalls(c, events, ip, now);
    SoloAnswerAt(c, ip, None, times, i);
    SoloAnswerAt(c, ip, None, times, i + 1);
    var b, answer := BucketBefore(c, None, times, i), Decide(c, BucketBefore(c, None, times, i), times[i]).1;
    if !answer.allowed && times[i + 1] >= times[i] + (answer.retryAfter + 1) * SECOND {
      RetryAfterSuffices(c, b.value, times[i], times[i + 1]);
    }
  }

  /** A client that waits exactly as long as it was told is served exactly when the seconds left were whole, or fewer than one. */
  lemma RetryAfterIsEnoughExactlyWhen(c: Config, b: Bucket, now: int)
    requires Denied(c, b, now)
    ensures var left := b.start + c.window - now;
      Decide(c, Some(b), now + Decide(c, Some(b), now).1.retryAfter * SECOND).1.allowed <==> left % SECOND == 0 || left < SECOND
  {
  }

  /** Told to wait one second with half a second more to go, the client is denied again. */
  lemma RetryAfterCanBeTooShort()
    ensures var c, b := Config(1, 2 * SECOND), Bucket(1, 0); var now := SECOND / 2;
      && Decide(c, Some(b), now).1 == Answer(false, 1)
      && !Decide(c, Some(b), now + SECOND).1.allowed
  {
  }

  // ---------------------------------------------------------------------------
  // The limiter
  // ---------------------------------------------------------------------------

  class Limiter {
    var buckets: map<string, Bucket>
    const cfg: Config

    constructor (limit: int, window: int)
      ensures cfg == Config(limit, window) && buckets == map[]
    {
      cfg := Config(limit, window);
      buckets := map[];
    }

    method Allow(ip: string, now: int) returns (allowed: bool, retryAfter: int)
      modifies this
      ensures (Lookup(buckets, ip), Answer(allowed, retryAfter)) == Decide(cfg, Lookup(old(buckets), ip), now)
      ensures buckets == Store(old(buckets), ip, Decide(cfg, Lookup(old(buckets), ip), now).0)
    {
      if cfg.limit == 0 {
        assert ip in buckets ==> buckets[ip := buckets[ip]] == buckets;
        return true, 0;
      }
      if ip !in buckets {
        buckets := buckets[ip := Bucket(1, now)];
        return true, 0;
      }
      var b := buckets[ip];
      if now - b.start >= cfg.window {
        buckets := buckets[ip := Bucket(1, now)];
        return true, 0;
      }
      if b.count < cfg.limit {
        buckets := buckets[ip := b.(count := b.count + 1)];
        return true, 0;
      }
      assert buckets[ip := b] == buckets;
      retryAfter := (b.start + cfg.window - now) / SECOND;
      if retryAfter < 1 {
        retryAfter := 1;
      }
      return false, retryAfter;
    }

    method Cleanup(now: int)
      modifies this
      ensures buckets == Cleaned(cfg, old(buckets), now)
      ensures forall ip :: ip in buckets <==> ip in old(buckets) && old(buckets)[ip].start >= now - 2 * cfg.window
      ensures forall ip :: ip in buckets ==> buckets[ip] == old(buckets)[ip]
    {
      var cutoff := now - 2 * cfg.window;
      var todo := buckets.Keys;
      while todo != {}
        invariant todo <= old(buckets).Keys
        invariant forall ip :: ip in buckets <==> ip in old(buckets) && (ip in todo || !(old(buckets)[ip].start < cutoff))
        invariant forall ip :: ip in buckets ==> buckets[ip] == old(buckets)[ip]
        decreases |todo|
      {
        var ip :| ip in todo;
        if buckets[ip].start < cutoff {
          buckets := buckets - {ip};
        }
        todo := todo - {ip};
      }
    }
  }
}
