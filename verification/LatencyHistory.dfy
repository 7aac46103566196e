/**
 What the latency tracker logs, in terms of the calls made on it and of nothing else: which stages a
 chunk reports, when each started and ended, and under which number.
 */
module LatencyHistory {
  import opened Common
  import opened Latency

  function Resets(calls: seq<Call>): nat {
    if calls == [] then 0 else Resets(calls[..|calls| - 1]) + if calls[|calls| - 1].CallReset? then 1 else 0
  }

  /** The chunk of the last reset has not been taken out. */
  predicate InFlight(calls: seq<Call>) {
    calls != [] && match calls[|calls| - 1]
      case CallReset => true
      case CallTake => false
      case _ => InFlight(calls[..|calls| - 1])
  }

  /** The positions of the calls that started a stage since the last reset. */
  function Starts(calls: seq<Call>): (r: seq<nat>)
    ensures forall i :: 0 <= i < |r| ==> r[i] < |calls| && calls[r[i]].CallStart?
  {
    if calls == [] then []
    else
      var n := |calls| - 1;
      match calls[n]
      case CallReset => []
      case CallStart(_, _) => Starts(calls[..n]) + [n]
      case _ => Starts(calls[..n])
  }

  /** How many more starts than ends of the stage there are among the calls after `p` and before `hi`. */
  function Balance(calls: seq<Call>, stage: Stage, p: nat, hi: nat): int
    requires p < hi <= |calls|
    decreases hi
  {
    if hi == p + 1 then 0
    else
      Balance(calls, stage, p, hi - 1) +
      match calls[hi - 1]
      case CallStart(s, _) => (if s == stage then 1 else 0)
      case CallEnd(s, _) => (if s == stage then -1 else 0)
      case _ => 0
  }

  /** The end at `q` is the matching one for the start at `p`, as brackets match: in between they are balanced and never close more than they open. */
  ghost predicate Matches(calls: seq<Call>, p: nat, q: nat) {
    && p < q < |calls| && calls[p].CallStart? && calls[q].CallEnd? && calls[q].stage == calls[p].stage
    && Balance(calls, calls[p].stage, p, q) == 0
    && forall h :: p < h <= q ==> Balance(calls, calls[p].stage, p, h) >= 0
  }

  /** An entry that tells the truth about the start at `p`: its stage, its time, and the time of the matching end if there is one. */
  ghost predicate Records(calls: seq<Call>, p: nat, x: Timing)
    requires p < |calls|
  {
    && calls[p] == CallStart(x.stage, x.start)
    && (x.end.None? <==> forall q :: p < q < |calls| ==> !Matches(calls, p, q))
    && (x.end.Some? ==> exists q: nat :: Matches(calls, p, q) && calls[q].now == x.end.value)
    && x.duration == if x.end.None? then 0 else x.end.value - x.start
  }

  // ---------------------------------------------------------------------------
  // One more call
  // ---------------------------------------------------------------------------

  lemma {:induction false} BalanceOfPrefix(calls: seq<Call>, call: Call, stage: Stage, p: nat, hi: nat)
    requires p < hi <= |calls|
    ensures Balance(calls + [call], stage, p, hi) == Balance(calls, stage, p, hi)
    decreases hi
  {
    if p + 1 < hi {
      BalanceOfPrefix(calls, call, stage, p, hi - 1);
    }
  }

  lemma MatchesOfPrefix(calls: seq<Call>, call: Call, p: nat, q: nat)
    requires p < q < |calls|
    ensures Matches(calls + [call], p, q) <==> Matches(calls, p, q)
  {
    if calls[p].CallStart? {
      var stage := calls[p].stage;
      forall h | p < h <= q ensures Balance(calls + [call], stage, p, h) == Balance(calls, stage, p, h) {
        BalanceOfPrefix(calls, call, stage, p, h);
      }
    }
  }

  /** How many entries of the stage from position `lo` on are open. */
  function CountOpen(ts: seq<Timing>, stage: Stage, lo: nat): nat
    decreases |ts|
  {
    if |ts| <= lo then 0
    else CountOpen(ts[..|ts| - 1], stage, lo) + if IsOpen(ts[|ts| - 1], stage) then 1 else 0
  }

  lemma CountOpenAppend(ts: seq<Timing>, x: Timing, stage: Stage, lo: nat)
    requires lo <= |ts|
    ensures CountOpen(ts + [x], stage, lo) == CountOpen(ts, stage, lo) + if IsOpen(x, stage) then 1 else 0
  {
    assert (ts + [x])[..|ts|] == ts;
  }

  lemma {:induction false} CountOpenZero(ts: seq<Timing>, stage: Stage, lo: nat)
    requires forall k :: lo <= k < |ts| ==> !IsOpen(ts[k], stage)
    ensures CountOpen(ts, stage, lo) == 0
    decreases |ts|
  {
    if lo < |ts| {
      CountOpenZero(ts[..|ts| - 1], stage, lo);
    }
  }

  lemma {:induction false} CountOpenClose(ts: seq<Timing>, x: Timing, j: nat, stage: Stage, lo: nat)
    requires j < |ts| && x.end.Some?
    ensures CountOpen(ts[j := x], stage, lo) == CountOpen(ts, stage, lo) - if lo <= j && IsOpen(ts[j], stage) then 1 else 0
    decreases |ts|
  {
    var n := |ts| - 1;
    if lo < |ts| {
      if j < n {
        assert ts[j := x][..n] == ts[..n][j := x];
        CountOpenClose(ts[..n], x, j, stage, lo);
      } else {
        assert ts[j := x][..n] == ts[..n];
      }
    }
  }

  /** Ending a stage closes its last open entry, or nothing. */
  lemma {:induction false} WhatCloses(ts: seq<Timing>, stage: Stage, now: int) returns (j: int)
    ensures -1 <= j < |ts| && forall k :: j < k < |ts| ==> !IsOpen(ts[k], stage)
    ensures j == -1 ==> CloseLast(ts, stage, now) == ts
    ensures j >= 0 ==> IsOpen(ts[j], stage) && CloseLast(ts, stage, now) == ts[j := ts[j].(end := Some(now), duration := now - ts[j].start)]
  {
    j := |ts| - 1;
    while j >= 0 && !IsOpen(ts[j], stage)
      invariant -1 <= j < |ts| && forall k :: j < k < |ts| ==> !IsOpen(ts[k], stage)
    {
      j := j - 1;
    }
    if j >= 0 {
      CloseLastAt(ts, j, stage, now);
    } else {
      NothingToClose(ts, stage, now);
    }
  }

  // ---------------------------------------------------------------------------
  // Entries and calls go together
  // ---------------------------------------------------------------------------

  /** Entry `i` was started at `p`; while it is open, the starts left unmatched since then are those of the open entries behind it. */
  ghost predicate Tracks(calls: seq<Call>, ts: seq<Timing>, i: nat, p: nat)
    requires i < |ts| && p < |calls|
  {
    var x := ts[i];
    && calls[p] == CallStart(x.stage, x.start)
    && x.duration == (if x.end.None? then 0 else x.end.value - x.start)
    && (x.end.Some? ==> exists q: nat :: Matches(calls, p, q) && calls[q].now == x.end.value)
    && (x.end.None? ==>
          && Balance(calls, x.stage, p, |calls|) == CountOpen(ts, x.stage, i + 1)
          && forall h :: p < h <= |calls| ==> Balance(calls, x.stage, p, h) >= 0)
  }

  lemma TracksRecords(calls: seq<Call>, ts: seq<Timing>, i: nat, p: nat)
    requires i < |ts| && p < |calls| && Tracks(calls, ts, i, p)
    ensures Records(calls, p, ts[i])
  {
    if ts[i].end.None? {
      forall q | p < q < |calls| ensures !Matches(calls, p, q) {
        assert Balance(calls, ts[i].stage, p, q + 1) >= 0;
      }
    }
  }

  /** A closed entry stays what it is. */
  lemma ClosedTracks(calls: seq<Call>, call: Call, ts: seq<Timing>, ts': seq<Timing>, i: nat, p: nat)
    requires i < |ts| && i < |ts'| && p < |calls| && Tracks(calls, ts, i, p) && ts[i].end.Some? && ts'[i] == ts[i]
    ensures Tracks(calls + [call], ts', i, p)
  {
    var q: nat :| Matches(calls, p, q) && calls[q].now == ts[i].end.value;
    MatchesOfPrefix(calls, call, p, q);
  }

  /** An open entry that stays open, with the balance following the open entries behind it. */
  lemma OpenTracks(calls: seq<Call>, call: Call, ts: seq<Timing>, ts': seq<Timing>, i: nat, p: nat)
    requires i < |ts| && i < |ts'| && p < |calls| && Tracks(calls, ts, i, p) && ts[i].end.None? && ts'[i] == ts[i]
    requires CountOpen(ts', ts[i].stage, i + 1) == CountOpen(ts, ts[i].stage, i + 1) +
      match call
      case CallStart(s, _) => (if s == ts[i].stage then 1 else 0)
      case CallEnd(s, _) => (if s == ts[i].stage then -1 else 0)
      case _ => 0
    ensures Tracks(calls + [call], ts', i, p)
  {
    var all, stage := calls + [call], ts[i].stage;
    BalanceOfPrefix(calls, call, stage, p, |calls|);
    forall h | p < h <= |all| ensures Balance(all, stage, p, h) >= 0 {
      if h <= |calls| {
        BalanceOfPrefix(calls, call, stage, p, h);
      }
    }
    assert all[|calls|] == call;
  }

  /** The entry that a call closes is matched by that call. */
  lemma NowClosedTracks(calls: seq<Call>, ts: seq<Timing>, i: nat, p: nat, now: int)
    requires i < |ts| && p < |calls| && Tracks(calls, ts, i, p) && ts[i].end.None?
    requires forall k :: i < k < |ts| ==> !IsOpen(ts[k], ts[i].stage)
    ensures Tracks(calls + [CallEnd(ts[i].stage, now)], ts[i := ts[i].(end := Some(now), duration := now - ts[i].start)], i, p)
  {
    var stage, n := ts[i].stage, |calls|;
    var call := CallEnd(stage, now);
    CountOpenZero(ts, stage, i + 1);
    BalanceOfPrefix(calls, call, stage, p, n);
    forall h | p < h <= n ensures Balance(calls + [call], stage, p, h) >= 0 {
      BalanceOfPrefix(calls, call, stage, p, h);
    }
    assert Matches(calls + [call], p, n);
  }

  ghost predicate AllTracked(calls: seq<Call>, ts: seq<Timing>) {
    && |ts| == |Starts(calls)|
    && forall i :: 0 <= i < |ts| ==> Tracks(calls, ts, i, Starts(calls)[i])
  }

  lemma StartsStep(calls: seq<Call>, call: Call)
    ensures Starts(calls + [call]) ==
      match call case CallReset => [] case CallStart(_, _) => Starts(calls) + [|calls|] case _ => Starts(calls)
  {
    assert (calls + [call])[..|calls|] == calls;
  }

  lemma StartIsTracked(calls: seq<Call>, ts: seq<Timing>, stage: Stage, now: int)
    requires AllTracked(calls, ts)
    ensures AllTracked(calls + [CallStart(stage, now)], ts + [Timing(stage, now, None, 0)])
  {
    var call, x := CallStart(stage, now), Timing(stage, now, None, 0);
    StartsStep(calls, call);
    forall i | 0 <= i < |ts| ensures Tracks(calls + [call], ts + [x], i, Starts(calls)[i]) {
      CountOpenAppend(ts, x, ts[i].stage, i + 1);
      if ts[i].end.Some? {
        ClosedTracks(calls, call, ts, ts + [x], i, Starts(calls)[i]);
      } else {
        OpenTracks(calls, call, ts, ts + [x], i, Starts(calls)[i]);
      }
    }
    assert Tracks(calls + [call], ts + [x], |ts|, |calls|);
  }

  lemma EndIsTracked(calls: seq<Call>, ts: seq<Timing>, stage: Stage, now: int)
    requires AllTracked(calls, ts)
    ensures AllTracked(calls + [CallEnd(stage, now)], CloseLast(ts, stage, now))
  {
    hide Tracks;
    var call, ts' := CallEnd(stage, now), CloseLast(ts, stage, now);
    StartsStep(calls, call);
    var j := WhatCloses(ts, stage, now);
    forall i | 0 <= i < |ts| ensures Tracks(calls + [call], ts', i, Starts(calls)[i]) {
      if i == j {
        NowClosedTracks(calls, ts, i, Starts(calls)[i], now);
      } else {
        OtherTracks(calls, ts, i, Starts(calls)[i], stage, now, j);
      }
    }
  }

  /** An entry that an end does not close; `j` is the one it closes, if any. */
  lemma OtherTracks(calls: seq<Call>, ts: seq<Timing>, i: nat, p: nat, stage: Stage, now: int, j: int)
    requires i < |ts| && p < |calls| && Tracks(calls, ts, i, p) && -1 <= j < |ts| && i != j
    requires forall k :: j < k < |ts| ==> !IsOpen(ts[k], stage)
    requires j >= 0 ==> IsOpen(ts[j], stage)
    ensures var ts' := if j == -1 then ts else ts[j := ts[j].(end := Some(now), duration := now - ts[j].start)];
      Tracks(calls + [CallEnd(stage, now)], ts', i, p)
  {
    hide Tracks;
    var ts' := if j == -1 then ts else ts[j := ts[j].(end := Some(now), duration := now - ts[j].start)];
    if ts[i].end.Some? {
      ClosedTracks(calls, CallEnd(stage, now), ts, ts', i, p);
    } else {
      if j >= 0 {
        CountOpenClose(ts, ts'[j], j, ts[i].stage, i + 1);
      }
      OpenTracks(calls, CallEnd(stage, now), ts, ts', i, p);
    }
  }

  lemma LogIsTracked(calls: seq<Call>, ts: seq<Timing>, k: nat)
    requires AllTracked(calls, ts)
    ensures AllTracked(calls + [CallLog(k)], ts)
  {
    var call := CallLog(k);
    StartsStep(calls, call);
    forall i | 0 <= i < |ts| ensures Tracks(calls + [call], ts, i, Starts(calls)[i]) {
      if ts[i].end.Some? {
        ClosedTracks(calls, call, ts, ts, i, Starts(calls)[i]);
      } else {
        OpenTracks(calls, call, ts, ts, i, Starts(calls)[i]);
      }
    }
  }

  lemma {:induction false} ChunkIsTracked(calls: seq<Call>)
    ensures var t := DoAll(calls).tracker;
      && t.count == Resets(calls)
      && (t.current.Some? <==> InFlight(calls))
      && (t.current.Some? ==> t.current.value.id == Resets(calls) && AllTracked(calls, t.current.value.timings))
  {
    if calls != [] {
      var n := |calls| - 1;
      var prev, call := calls[..n], calls[n];
      ChunkIsTracked(prev);
      assert calls == prev + [call];
      hide AllTracked;
      var t := DoAll(prev).tracker;
      if t.current.Some? {
        var ts := t.current.value.timings;
        match call
        case CallReset =>
        case CallStart(stage, now) => StartIsTracked(prev, ts, stage, now);
        case CallEnd(stage, now) => EndIsTracked(prev, ts, stage, now);
        case CallTake =>
        case CallLog(k) => LogIsTracked(prev, ts, k);
      }
      if call.CallReset? {
        NothingTracked(calls);
      }
    }
  }

  lemma NothingTracked(calls: seq<Call>)
    requires calls != [] && calls[|calls| - 1].CallReset?
    ensures AllTracked(calls, [])
  {
  }

  /**
   The chunk in flight carries the number of resets, and an entry for each stage started since the last one and for
   no other, in order, with its time and the time of its matching end: nothing stale.
   */
  lemma ChunkIsItsHistory(calls: seq<Call>)
    ensures DoAll(calls).tracker.count == Resets(calls)
    ensures DoAll(calls).tracker.current.Some? <==> InFlight(calls)
    ensures InFlight(calls) ==>
      var c := DoAll(calls).tracker.current.value;
      && c.id == Resets(calls) && |c.timings| == |Starts(calls)|
      && forall i :: 0 <= i < |c.timings| ==> Records(calls, Starts(calls)[i], c.timings[i])
  {
    ChunkIsTracked(calls);
    if InFlight(calls) {
      var ts := DoAll(calls).tracker.current.value.timings;
      forall i | 0 <= i < |ts| ensures Records(calls, Starts(calls)[i], ts[i]) {
        TracksRecords(calls, ts, i, Starts(calls)[i]);
      }
    }
  }

  // ---------------------------------------------------------------------------
  // What is logged
  // ---------------------------------------------------------------------------

  lemma TakeAppends(m: Machine)
    requires m.tracker.current.Some?
    ensures Do(m, CallTake).taken == m.taken + [m.tracker.current.value] && Do(m, CallTake).events == m.events
  {
  }

  lemma KeepsTaken(m: Machine, call: Call)
    requires !call.CallLog?
    ensures m.taken <= Do(m, call).taken && Do(m, call).events == m.events
  {
  }

  /** Until it is logged, a chunk that was taken out stays what it was. */
  lemma {:induction false} TakenStays(calls: seq<Call>, between: seq<Call>)
    requires InFlight(calls) && forall c :: c in between ==> !c.CallLog?
    ensures DoAll(calls).tracker.current.Some?
    ensures var n, m := |DoAll(calls).taken|, DoAll(calls + [CallTake] + between);
      && n < |m.taken| && m.taken[n] == DoAll(calls).tracker.current.value && m.events == DoAll(calls).events
    decreases |between|
  {
    hide AllTracked, DoAll, Do;
    ChunkIsTracked(calls);
    if between == [] {
      TakeAppends(DoAll(calls));
      OneMoreCall(calls, CallTake);
      assert calls + [CallTake] + [] == calls + [CallTake];
    } else {
      var rest, last := between[..|between| - 1], between[|between| - 1];
      TakenStays(calls, rest);
      KeepsTaken(DoAll(calls + [CallTake] + rest), last);
      OneMoreCall(calls + [CallTake] + rest, last);
      assert calls + [CallTake] + between == calls + [CallTake] + rest + [last];
    }
  }

  /** The event tells what happened to the chunk, by the calls made on the tracker until it was taken out. */
  ghost predicate Tells(e: Emitted, calls: seq<Call>) {
    && e.Event? && e.id == Resets(calls) && |e.timings| == |Starts(calls)|
    && (forall i :: 0 <= i < |e.timings| ==> Records(calls, Starts(calls)[i], e.timings[i]))
    && e.total == ClosedTime(e.timings)
  }

  /**
   Whatever the callers do, and whatever comes between taking a chunk out and logging it: logging it adds one event.
   With at most five stages started since its reset, the event tells exactly what happened; with more, the array overruns.
   */
  lemma EventIsItsHistory(calls: seq<Call>, between: seq<Call>)
    requires InFlight(calls) && forall c :: c in between ==> !c.CallLog?
    ensures var m := DoAll(calls + [CallTake] + between + [CallLog(|DoAll(calls).taken|)]);
      && |m.events| == |DoAll(calls).events| + 1 && m.events[..|m.events| - 1] == DoAll(calls).events
      && var e := m.events[|m.events| - 1];
         if |Starts(calls)| <= 5 then Tells(e, calls) else e.OutOfRange?
  {
    ChunkIsItsHistory(calls);
    TakenStays(calls, between);
    OneMoreCall(calls + [CallTake] + between, CallLog(|DoAll(calls).taken|));
    ChunkReportTells(calls, DoAll(calls).tracker.current.value);
  }

  lemma ChunkReportTells(calls: seq<Call>, c: Chunk)
    requires c.id == Resets(calls) && |c.timings| == |Starts(calls)|
    requires forall i :: 0 <= i < |c.timings| ==> Records(calls, Starts(calls)[i], c.timings[i])
    ensures if |Starts(calls)| <= 5 then Tells(Report(c), calls) else Report(c).OutOfRange?
  {
    TotalIsClosedTime(c.timings);
  }

  // ---------------------------------------------------------------------------
  // A half from beginning to end
  // ---------------------------------------------------------------------------

  function After(h: Half, steps: seq<Step>): Half
    decreases |steps|
  {
    if steps == [] then h else After(Latency.Apply(h, steps[0]), steps[1..])
  }

  lemma {:induction false} RunContinues(steps: seq<Step>, more: seq<Step>)
    ensures Run(steps + more) == After(Run(steps), more)
    decreases |more|
  {
    if more == [] {
      assert steps + more == steps;
    } else {
      assert (steps + [more[0]])[..|steps|] == steps;
      RunContinues(steps + [more[0]], more[1..]);
      assert steps + more == steps + [more[0]] + more[1..];
    }
  }

  lemma AfterNothing(h: Half)
    ensures After(h, []) == h
  {
  }

  lemma AfterTwo(h: Half, a: Step, b: Step)
    ensures After(h, [a, b]) == Latency.Apply(Latency.Apply(h, a), b)
  {
    var h1 := Latency.Apply(h, a);
    assert [a, b][1..] == [b] && [b][1..] == [];
    assert After(h1, [b]) == After(Latency.Apply(h1, b), []);
  }

  lemma AfterThree(h: Half, a: Step, b: Step, c: Step)
    ensures After(h, [a, b, c]) == Latency.Apply(Latency.Apply(Latency.Apply(h, a), b), c)
  {
    AfterTwo(Latency.Apply(h, a), b, c);
    assert [a, b, c][1..] == [b, c];
  }

  /** What the callback does for one frame, when it is not interrupted. */
  lemma FrameCaptured(t0: int, t1: int, t2: int)
    ensures After(IDLE, [CallbackStep(t0), CallbackStep(t1), CallbackStep(t2)]) ==
      Half(Machine(Tracker(1, Some(Chunk(1, [Timing(Capture, t1, Some(t2), t2 - t1)]))), [], []), Waiting, 0)
  {
    hide After, CloseLast;
    AfterThree(IDLE, CallbackStep(t0), CallbackStep(t1), CallbackStep(t2));
    var ts := [Timing(Capture, t1, None, 0)];
    CloseLastAt(ts, 0, Capture, t2);
    assert ts[0 := ts[0].(end := Some(t2), duration := t2 - t1)] == [Timing(Capture, t1, Some(t2), t2 - t1)];
    var h1 := Latency.Apply(IDLE, CallbackStep(t0));
    assert h1.machine.tracker == Tracker(1, Some(Chunk(1, []))) && h1.callback.ResetDone?;
    var h2 := Latency.Apply(h1, CallbackStep(t1));
    assert [] + ts == ts;
    assert h2.callback.Capturing? && h2.machine.tracker == Tracker(1, Some(Chunk(1, ts)));
  }

  /** A stage that starts and ends is one more closed entry. */
  lemma StagePasses(h: Half, c: Chunk, start: int, end: int)
    requires h.machine.tracker.current == Some(c) && h.calls < 8 && h.calls % 2 == 0
    ensures var x := Timing(StageOf(h.calls / 2), start, Some(end), end - start);
      After(h, [StageStep(start), StageStep(end)]) ==
        h.(calls := h.calls + 2, machine := h.machine.(tracker := h.machine.tracker.(current := Some(Chunk(c.id, c.timings + [x])))))
  {
    hide After, CloseLast;
    var stage := StageOf(h.calls / 2);
    AfterTwo(h, StageStep(start), StageStep(end));
    var started := c.timings + [Timing(stage, start, None, 0)];
    CloseLastAt(started, |c.timings|, stage, end);
    assert started[|c.timings| := Timing(stage, start, Some(end), end - start)] == c.timings + [Timing(stage, start, Some(end), end - start)];
    var h1 := Latency.Apply(h, StageStep(start));
    assert h1.machine.tracker.current == Some(Chunk(c.id, started)) && h1.calls / 2 == h.calls / 2;
  }

  /** A stage that starts and fails ends the half: the chunk is logged with its open entry. */
  lemma StageFailing(h: Half, c: Chunk, start: int, now: int)
    requires h.machine.tracker.current == Some(c) && h.calls < 8 && h.calls % 2 == 0 && h.machine.taken == []
    ensures After(h, [StageStep(start), StageFails, StageStep(now)]).machine.events ==
      h.machine.events + [Report(Chunk(c.id, c.timings + [Timing(StageOf(h.calls / 2), start, None, 0)]))]
  {
    hide After;
    AfterThree(h, StageStep(start), StageFails, StageStep(now));
    var h1 := Latency.Apply(h, StageStep(start));
    var failed := Chunk(c.id, c.timings + [Timing(StageOf(h.calls / 2), start, None, 0)]);
    assert h1.machine.tracker.current == Some(failed) && h1.machine.taken == [] && h1.calls == h.calls + 1;
    var h2 := Latency.Apply(h1, StageFails);
    assert h2.machine.taken == [failed] && h2.calls == 9;
  }

  lemma {:induction false} AfterJoins(h: Half, a: seq<Step>, b: seq<Step>)
    ensures After(h, a + b) == After(After(h, a), b)
    decreases |a|
  {
    if a == [] {
      assert a + b == b;
    } else {
      assert (a + b)[0] == a[0] && (a + b)[1..] == a[1..] + b;
      AfterJoins(Latency.Apply(h, a[0]), a[1..], b);
    }
  }

  /** The entry of a stage that took the time from `at[2 k]` to `at[2 k + 1]`. */
  function Took(stage: Stage, at: seq<int>, k: nat): Timing
    requires 2 * k + 1 < |at|
  {
    Timing(stage, at[2 * k], Some(at[2 * k + 1]), at[2 * k + 1] - at[2 * k])
  }

  function StageSteps(at: seq<int>, k: nat): seq<Step>
    requires 2 * k <= |at|
  {
    if k == 0 then [] else StageSteps(at, k - 1) + [StageStep(at[2 * k - 2]), StageStep(at[2 * k - 1])]
  }

  function Entries(at: seq<int>, k: nat): seq<Timing>
    requires 2 * k <= |at| && k <= 4
  {
    if k == 0 then [] else Entries(at, k - 1) + [Took(StageOf(k - 1), at, k - 1)]
  }

  lemma {:induction false} StagesPass(h: Half, c: Chunk, at: seq<int>, k: nat)
    requires h.machine.tracker.current == Some(c) && h.calls == 0 && |at| == 8 && k <= 4
    ensures After(h, StageSteps(at, k)) ==
      h.(calls := 2 * k, machine := h.machine.(tracker := h.machine.tracker.(current := Some(Chunk(c.id, c.timings + Entries(at, k))))))
  {
    hide After, Latency.Apply;
    if k == 0 {
      assert c.timings + [] == c.timings;
      AfterNothing(h);
    } else {
      StagesPass(h, c, at, k - 1);
      var h1, c1 := After(h, StageSteps(at, k - 1)), Chunk(c.id, c.timings + Entries(at, k - 1));
      AfterJoins(h, StageSteps(at, k - 1), [StageStep(at[2 * k - 2]), StageStep(at[2 * k - 1])]);
      StagePasses(h1, c1, at[2 * k - 2], at[2 * k - 1]);
      assert c.timings + Entries(at, k) == c1.timings + [Took(StageOf(k - 1), at, k - 1)];
    }
  }

  /** A frame that is captured and goes through all stages is logged once, with the five stages in order and their times. */
  lemma WholeHalfIsLogged(t0: int, t1: int, t2: int, at: seq<int>, t3: int, t4: int)
    requires |at| == 8
    ensures var steps := [CallbackStep(t0), CallbackStep(t1), CallbackStep(t2)] + StageSteps(at, 4) + [StageStep(t3), StageStep(t4)];
      var entries := [Timing(Capture, t1, Some(t2), t2 - t1), Took(Decode, at, 0), Took(Translate, at, 1), Took(Encode, at, 2), Took(Send, at, 3)];
      Run(steps).machine.events == [Event(1, entries, ClosedTime(entries))]
  {
    hide After, Run, StageSteps, Entries;
    var a, b, c := [CallbackStep(t0), CallbackStep(t1), CallbackStep(t2)], StageSteps(at, 4), [StageStep(t3), StageStep(t4)];
    var entries := [Timing(Capture, t1, Some(t2), t2 - t1), Took(Decode, at, 0), Took(Translate, at, 1), Took(Encode, at, 2), Took(Send, at, 3)];
    RunContinues([], a + b + c);
    NothingRun();
    assert [] + (a + b + c) == a + b + c;
    AfterJoins(IDLE, a + b, c);
    AfterJoins(IDLE, a, b);
    FrameCaptured(t0, t1, t2);
    var h, chunk := After(IDLE, a), Chunk(1, [Timing(Capture, t1, Some(t2), t2 - t1)]);
    StagesPass(h, chunk, at, 4);
    FourEntries(at);
    assert chunk.timings + Entries(at, 4) == entries;
    LastTwoSteps(After(h, b), Chunk(1, entries), t3, t4);
    TotalIsClosedTime(entries);
  }

  lemma NothingRun()
    ensures Run([]) == IDLE
  {
  }

  lemma FourEntries(at: seq<int>)
    requires |at| == 8
    ensures Entries(at, 4) == [Took(Decode, at, 0), Took(Translate, at, 1), Took(Encode, at, 2), Took(Send, at, 3)]
  {
    assert Entries(at, 1) == [Took(Decode, at, 0)];
    assert Entries(at, 2) == [Took(Decode, at, 0), Took(Translate, at, 1)];
    assert Entries(at, 3) == [Took(Decode, at, 0), Took(Translate, at, 1), Took(Encode, at, 2)];
  }

  lemma LastTwoSteps(h: Half, c: Chunk, t3: int, t4: int)
    requires h.machine.tracker.current == Some(c) && h.calls == 8 && h.machine.taken == []
    ensures After(h, [StageStep(t3), StageStep(t4)]).machine.events == h.machine.events + [Report(c)]
  {
    hide After;
    AfterTwo(h, StageStep(t3), StageStep(t4));
    var h1 := Latency.Apply(h, StageStep(t3));
    assert h1.machine.taken == [c] && h1.calls == 9;
  }
}
