/**
 The latency tracker of one pipeline half. Chunk objects are recycled through a pool; the
 tracker must behave as if it allocated a new one for every chunk. The second part puts the
 tracker under the two goroutines that use it: the capture callback and the pipeline half.
 */
module Latency {
  import opened Common

  const MAX_STAGES := 5

  datatype Stage = Capture | Decode | Translate | Encode | Send

  /** `end` is absent while the source's end time is the zero time. */
  datatype Timing = Timing(stage: Stage, start: int, end: Option<int>, duration: int)

  datatype Chunk = Chunk(id: nat, timings: seq<Timing>)

  /** The tracker that allocates anew: the number of chunks so far and the one in flight. */
  datatype Tracker = Tracker(count: nat, current: Option<Chunk>)

  datatype Emitted = Event(id: nat, timings: seq<Timing>, total: int) | OutOfRange

  function Reset(t: Tracker): Tracker {
    Tracker(t.count + 1, Some(Chunk(t.count + 1, [])))
  }

  function StartStage(t: Tracker, stage: Stage, now: int): Tracker {
    if t.current.None? then t
    else t.(current := Some(Opened(t.current.value, stage, now)))
  }

  function Opened(c: Chunk, stage: Stage, now: int): Chunk {
    c.(timings := c.timings + [Timing(stage, now, None, 0)])
  }

  function EndStage(t: Tracker, stage: Stage, now: int): Tracker {
    if t.current.None? then t
    else t.(current := Some(Chunk(t.current.value.id, CloseLast(t.current.value.timings, stage, now))))
  }

  predicate IsOpen(x: Timing, stage: Stage) {
    x.stage == stage && x.end.None?
  }

  /** Closes the most recent open entry of the stage; without one nothing changes. */
  function CloseLast(ts: seq<Timing>, stage: Stage, now: int): (r: seq<Timing>)
    ensures |r| == |ts| && forall i :: 0 <= i < |ts| ==> r[i].stage == ts[i].stage && r[i].start == ts[i].start
  {
    if ts == [] then ts
    else
      var n := |ts| - 1;
      if IsOpen(ts[n], stage) then ts[n := ts[n].(end := Some(now), duration := now - ts[n].start)]
      else CloseLast(ts[..n], stage, now) + [ts[n]]
  }

  lemma {:induction false} CloseLastAt(ts: seq<Timing>, i: nat, stage: Stage, now: int)
    requires i < |ts| && IsOpen(ts[i], stage)
    requires forall j :: i < j < |ts| ==> !IsOpen(ts[j], stage)
    ensures CloseLast(ts, stage, now) == ts[i := ts[i].(end := Some(now), duration := now - ts[i].start)]
    decreases |ts|
  {
    var n := |ts| - 1;
    if i < n {
      CloseLastAt(ts[..n], i, stage, now);
    }
  }

  lemma {:induction false} NothingToClose(ts: seq<Timing>, stage: Stage, now: int)
    requires forall j :: 0 <= j < |ts| ==> !IsOpen(ts[j], stage)
    ensures CloseLast(ts, stage, now) == ts
    decreases |ts|
  {
    if ts != [] {
      NothingToClose(ts[..|ts| - 1], stage, now);
    }
  }

  function Total(ts: seq<Timing>): int {
    if ts == [] then 0 else Total(ts[..|ts| - 1]) + ts[|ts| - 1].duration
  }

  /** The event for a chunk. The attribute array has room for five stages. */
  function Report(c: Chunk): Emitted {
    if |c.timings| > MAX_STAGES then OutOfRange else Event(c.id, c.timings, Total(c.timings))
  }

  /** The locked part of an emission takes the chunk in flight out. */
  function Detach(t: Tracker): Tracker {
    t.(current := None)
  }

  // ---------------------------------------------------------------------------
  // Runs of the tracker that allocates anew
  // ---------------------------------------------------------------------------

  /** The calls on a tracker. An emission is two: the chunk is taken out, and some time later it is logged. */
  datatype Call = CallReset | CallStart(stage: Stage, now: int) | CallEnd(stage: Stage, now: int) | CallTake | CallLog(i: nat)

  /** The tracker, the chunks on their way to the log, and the events logged. A chunk that was taken is a value nobody can change. */
  datatype Machine = Machine(tracker: Tracker, taken: seq<Chunk>, events: seq<Emitted>)

  function Do(m: Machine, call: Call): Machine {
    match call
    case CallReset => m.(tracker := Reset(m.tracker))
    case CallStart(stage, now) => m.(tracker := StartStage(m.tracker, stage, now))
    case CallEnd(stage, now) => m.(tracker := EndStage(m.tracker, stage, now))
    case CallTake =>
      if m.tracker.current.None? then m
      else m.(tracker := Detach(m.tracker), taken := m.taken + [m.tracker.current.value])
    case CallLog(i) =>
      if i >= |m.taken| then m
      else m.(taken := m.taken[..i] + m.taken[i + 1..], events := m.events + [Report(m.taken[i])])
  }

  function DoAll(calls: seq<Call>): Machine {
    if calls == [] then Machine(Tracker(0, None), [], []) else Do(DoAll(calls[..|calls| - 1]), calls[|calls| - 1])
  }

  lemma OneMoreCall(calls: seq<Call>, call: Call)
    ensures DoAll(calls + [call]) == Do(DoAll(calls), call)
  {
    assert (calls + [call])[..|calls|] == calls;
  }

  // ---------------------------------------------------------------------------
  // What events say
  // ---------------------------------------------------------------------------

  /** Open entries count nothing, closed ones the time between their start and their end. */
  predicate Honest(ts: seq<Timing>) {
    forall i :: 0 <= i < |ts| ==> ts[i].duration == if ts[i].end.None? then 0 else ts[i].end.value - ts[i].start
  }

  function ClosedTime(ts: seq<Timing>): int {
    if ts == [] then 0
    else
      var x := ts[|ts| - 1];
      ClosedTime(ts[..|ts| - 1]) + if x.end.Some? then x.end.value - x.start else 0
  }

  /** The closed time of consecutive entries adds up, and an entry contributes the time between its start and its end. */
  lemma {:induction false} ClosedTimeAdds(a: seq<Timing>, b: seq<Timing>, x: Timing)
    ensures ClosedTime(a + b) == ClosedTime(a) + ClosedTime(b)
    ensures ClosedTime([x]) == if x.end.Some? then x.end.value - x.start else 0
    decreases |b|
  {
    if b == [] {
      assert a + b == a;
    } else {
      var n := |b| - 1;
      assert (a + b)[..|a + b| - 1] == a + b[..n];
      ClosedTimeAdds(a, b[..n], x);
    }
  }

  lemma {:induction false} TotalIsClosedTime(ts: seq<Timing>)
    requires Honest(ts)
    ensures Total(ts) == ClosedTime(ts)
  {
    if ts != [] {
      TotalIsClosedTime(ts[..|ts| - 1]);
    }
  }

  lemma {:induction false} CloseKeepsHonest(ts: seq<Timing>, stage: Stage, now: int)
    requires Honest(ts)
    ensures Honest(CloseLast(ts, stage, now))
    decreases |ts|
  {
    if ts != [] && !IsOpen(ts[|ts| - 1], stage) {
      CloseKeepsHonest(ts[..|ts| - 1], stage, now);
    }
  }

  // ---------------------------------------------------------------------------
  // The two goroutines of a half
  // ---------------------------------------------------------------------------

  /** The capture callback, per frame: reset, start and end the capture stage. */
  datatype CallbackPhase = Waiting | ResetDone | Capturing

  /**
   How many of the half's tracker calls are done: start and end of each of four stages, then taking
   the chunk out, then logging it.
   */
  datatype Half = Half(machine: Machine, callback: CallbackPhase, calls: nat)

  datatype Step = CallbackStep(now: int) | StageStep(now: int) | StageFails

  function StageOf(k: nat): Stage
    requires k < 4
  {
    if k == 0 then Decode else if k == 1 then Translate else if k == 2 then Encode else Send
  }

  /** The tracker call a step makes. */
  function CallOf(h: Half, step: Step): Option<Call> {
    match step
    case CallbackStep(now) =>
      (match h.callback
       case Waiting => Some(CallReset)
       case ResetDone => Some(CallStart(Capture, now))
       case Capturing => Some(CallEnd(Capture, now)))
    case StageStep(now) =>
      if h.calls < 8 then Some(if h.calls % 2 == 0 then CallStart(StageOf(h.calls / 2), now) else CallEnd(StageOf(h.calls / 2), now))
      else if h.calls == 8 then Some(CallTake)
      else if h.calls == 9 then Some(CallLog(0))
      else None
    case StageFails => if h.calls < 8 && h.calls % 2 == 1 then Some(CallTake) else None
  }

  /** Where the two goroutines stand after the step. */
  function Moved(h: Half, step: Step): Half {
    match step
    case CallbackStep(_) =>
      h.(callback := match h.callback case Waiting => ResetDone case ResetDone => Capturing case Capturing => Waiting)
    case StageStep(_) => if h.calls < 10 then h.(calls := h.calls + 1) else h
    case StageFails => if CallOf(h, step).Some? then h.(calls := 9) else h
  }

  function Apply(h: Half, step: Step): Half {
    match CallOf(h, step)
    case None => Moved(h, step)
    case Some(call) => Moved(h, step).(machine := Do(h.machine, call))
  }

  const IDLE := Half(Machine(Tracker(0, None), [], []), Waiting, 0)

  function Run(steps: seq<Step>): Half {
    if steps == [] then IDLE else Apply(Run(steps[..|steps| - 1]), steps[|steps| - 1])
  }

  /** The tracker calls of a run, in order. */
  function CallsOf(steps: seq<Step>): seq<Call> {
    if steps == [] then []
    else
      var prev, step := steps[..|steps| - 1], steps[|steps| - 1];
      CallsOf(prev) + match CallOf(Run(prev), step) case None => [] case Some(call) => [call]
  }

  /** A run of the two goroutines is a run of their tracker. */
  lemma {:induction false} RunIsItsCalls(steps: seq<Step>)
    ensures Run(steps).machine == DoAll(CallsOf(steps))
  {
    if steps != [] {
      var prev, step := steps[..|steps| - 1], steps[|steps| - 1];
      RunIsItsCalls(prev);
      match CallOf(Run(prev), step)
      case None => assert CallsOf(steps) == CallsOf(prev);
      case Some(call) => OneMoreCall(CallsOf(prev), call);
    }
  }

  predicate DistinctStages(ts: seq<Timing>) {
    forall i, j :: 0 <= i < j < |ts| ==> ts[i].stage != ts[j].stage
  }

  /** The stages that may already have an entry in the current chunk. */
  predicate MayHave(h: Half, stage: Stage) {
    if stage.Capture? then !h.callback.ResetDone?
    else exists k :: 0 <= k < 4 && StageOf(k) == stage && 2 * k < h.calls
  }

  ghost predicate GoodChunk(h: Half, c: Chunk) {
    1 <= c.id <= h.machine.tracker.count && DistinctStages(c.timings) && Honest(c.timings)
  }

  predicate GoodEvent(e: Emitted, count: nat) {
    e.Event? && 1 <= e.id <= count && DistinctStages(e.timings) && e.total == ClosedTime(e.timings)
  }

  /** The chunk in flight has entries only for stages that may have one. */
  ghost predicate InFlightOk(h: Half) {
    h.machine.tracker.current.Some? ==>
      var c := h.machine.tracker.current.value;
      GoodChunk(h, c) && forall i :: 0 <= i < |c.timings| ==> MayHave(h, c.timings[i].stage)
  }

  ghost predicate Good(h: Half) {
    && InFlightOk(h)
    && (forall i :: 0 <= i < |h.machine.taken| ==> GoodChunk(h, h.machine.taken[i]))
    && (forall e :: e in h.machine.events ==> GoodEvent(e, h.machine.tracker.count))
    && h.calls <= 10
    && |h.machine.taken| <= (if h.calls == 9 then 1 else 0)
    && |h.machine.events| <= (if h.calls == 10 then 1 else 0)
  }

  function StagesOf(ts: seq<Timing>): set<Stage> {
    set i | 0 <= i < |ts| :: ts[i].stage
  }

  lemma {:induction false} DistinctStagesBound(ts: seq<Timing>)
    requires DistinctStages(ts)
    ensures |StagesOf(ts)| == |ts|
  {
    if ts != [] {
      var n := |ts| - 1;
      DistinctStagesBound(ts[..n]);
      LastStageIsNew(ts);
    }
  }

  lemma LastStageIsNew(ts: seq<Timing>)
    requires ts != [] && DistinctStages(ts)
    ensures var n := |ts| - 1; StagesOf(ts) == StagesOf(ts[..n]) + {ts[n].stage} && ts[n].stage !in StagesOf(ts[..n])
  {
    var n := |ts| - 1;
    forall x | x in StagesOf(ts) ensures x in StagesOf(ts[..n]) + {ts[n].stage} {
      var i :| 0 <= i < |ts| && ts[i].stage == x;
      assert i < n ==> ts[..n][i].stage == x;
    }
  }

  lemma AtMostFive(ts: seq<Timing>)
    requires DistinctStages(ts)
    ensures |ts| <= MAX_STAGES
  {
    DistinctStagesBound(ts);
    var all := {Capture, Decode, Translate, Encode, Send};
    forall x: Stage ensures x in all {
      match x
      case Capture =>
      case Decode =>
      case Translate =>
      case Encode =>
      case Send =>
    }
    SubsetSize(StagesOf(ts), all);
  }

  lemma {:induction false} SubsetSize(a: set<Stage>, b: set<Stage>)
    requires a <= b
    ensures |a| <= |b|
  {
    assert b == a + (b - a);
  }

  /** A stage that has no entry yet may get one. */
  lemma OpenKeeps(h: Half, h': Half, stage: Stage, now: int)
    requires InFlightOk(h) && !MayHave(h, stage) && MayHave(h', stage) && (forall s :: MayHave(h, s) ==> MayHave(h', s))
    requires h'.machine.tracker == StartStage(h.machine.tracker, stage, now)
    ensures InFlightOk(h')
  {
    if h.machine.tracker.current.Some? {
      var ts, ts' := h.machine.tracker.current.value.timings, h'.machine.tracker.current.value.timings;
      assert forall i :: 0 <= i < |ts| ==> ts'[i] == ts[i];
    }
  }

  lemma CloseKeeps(h: Half, h': Half, stage: Stage, now: int)
    requires InFlightOk(h) && (forall s :: MayHave(h, s) ==> MayHave(h', s))
    requires h'.machine.tracker == EndStage(h.machine.tracker, stage, now)
    ensures InFlightOk(h')
  {
    if h.machine.tracker.current.Some? {
      CloseKeepsHonest(h.machine.tracker.current.value.timings, stage, now);
    }
  }

  lemma ReportIsGood(h: Half, c: Chunk)
    requires GoodChunk(h, c)
    ensures GoodEvent(Report(c), h.machine.tracker.count)
  {
    AtMostFive(c.timings);
    TotalIsClosedTime(c.timings);
  }

  lemma CallbackKeepsGood(h: Half, now: int)
    requires Good(h)
    ensures Good(Apply(h, CallbackStep(now)))
  {
    var h' := Apply(h, CallbackStep(now));
    match h.callback
    case Waiting =>
    case ResetDone => OpenKeeps(h, h', Capture, now);
    case Capturing => CloseKeeps(h, h', Capture, now);
  }

  lemma StageKeepsGood(h: Half, now: int)
    requires Good(h) && h.calls < 8
    ensures Good(Apply(h, StageStep(now)))
  {
    var h', k := Apply(h, StageStep(now)), h.calls / 2;
    if h.calls % 2 == 0 {
      assert MayHave(h', StageOf(k));
      OpenKeeps(h, h', StageOf(k), now);
    } else {
      CloseKeeps(h, h', StageOf(k), now);
    }
  }

  lemma TakeKeepsGood(h: Half, step: Step)
    requires Good(h) && CallOf(h, step) == Some(CallTake)
    ensures Good(Apply(h, step))
  {
  }

  lemma LogKeepsGood(h: Half, now: int)
    requires Good(h) && h.calls == 9
    ensures Good(Apply(h, StageStep(now)))
  {
    if h.machine.taken != [] {
      ReportIsGood(h, h.machine.taken[0]);
    }
  }

  lemma StepKeepsGood(h: Half, step: Step)
    requires Good(h)
    ensures Good(Apply(h, step))
  {
    match step
    case CallbackStep(now) => CallbackKeepsGood(h, now);
    case StageStep(now) =>
      if h.calls < 8 {
        StageKeepsGood(h, now);
      } else if h.calls == 8 {
        TakeKeepsGood(h, step);
      } else if h.calls == 9 {
        LogKeepsGood(h, now);
      }
    case StageFails =>
      if CallOf(h, step).Some? {
        TakeKeepsGood(h, step);
      }
  }

  lemma {:induction false} RunKeepsGood(steps: seq<Step>)
    ensures Good(Run(steps))
  {
    if steps != [] {
      RunKeepsGood(steps[..|steps| - 1]);
      StepKeepsGood(Run(steps[..|steps| - 1]), steps[|steps| - 1]);
    }
  }

  /**
   For every interleaving of the capture callback with the half's stages and with the two parts of its
   emission, whether stages succeed or fail: no chunk ever has two entries for a stage, so at most five;
   a half emits at most one event, never runs out of its attribute array, and reports the sum of the
   closed stages.
   */
  lemma EmissionsAreSound(steps: seq<Step>)
    ensures var m := Run(steps).machine;
      && (m.tracker.current.Some? ==> |m.tracker.current.value.timings| <= MAX_STAGES)
      && |m.events| <= 1
      && forall e :: e in m.events ==> GoodEvent(e, m.tracker.count) && |e.timings| <= MAX_STAGES
  {
    RunKeepsGood(steps);
    var m := Run(steps).machine;
    if m.tracker.current.Some? {
      AtMostFive(m.tracker.current.value.timings);
    }
    forall e | e in m.events ensures GoodEvent(e, m.tracker.count) && |e.timings| <= MAX_STAGES {
      AtMostFive(e.timings);
    }
  }
}

/** The tracker as the source keeps it: chunk objects changed in place and recycled. */
module LatencyObject {
  import opened Common
  import opened Latency

  class ChunkLatency {
    var id: nat
    var timings: seq<Timing>
    var total: int

    constructor ()
      ensures id == 0 && timings == [] && total == 0
    {
      id, timings, total := 0, [], 0;
    }

    function View(): Chunk
      reads this
    {
      Chunk(id, timings)
    }
  }

  /**
   `Emit` takes the chunk out under the lock and logs it afterwards, so other calls can come in
   between; `detached` holds the chunks on their way to the log.
   */
  class LatencyTracker {
    var pool: set<ChunkLatency>
    var current: ChunkLatency?
    var chunkID: nat
    ghost var detached: set<ChunkLatency>

    ghost predicate Valid()
      reads this
    {
      && pool !! detached
      && (current != null ==> current !in pool && current !in detached)
    }

    ghost function Objects(): set<ChunkLatency>
      reads this
    {
      pool + detached + if current != null then {current} else {}
    }

    function View(): Tracker
      reads this, if current != null then {current} else {}
    {
      Tracker(chunkID, if current == null then None else Some(current.View()))
    }

    constructor ()
      ensures Valid() && View() == Tracker(0, None) && pool == {} && detached == {}
    {
      pool, current, chunkID, detached := {}, null, 0, {};
    }

    /** The pool may hand out any recycled chunk, whatever it still contains, or a new one. */
    method Reset(recycle: bool)
      requires Valid()
      modifies this, pool
      ensures Valid() && fresh(Objects() - old(Objects())) && detached == old(detached)
      ensures View() == Latency.Reset(old(View()))
    {
      chunkID := chunkID + 1;
      var cl: ChunkLatency;
      if recycle && pool != {} {
        cl :| cl in pool;
        pool := pool - {cl};
      } else {
        cl := new ChunkLatency();
      }
      cl.id := chunkID;
      cl.timings := [];
      cl.total := 0;
      current := cl;
    }

    method StartStage(stage: Stage, now: int)
      requires Valid()
      modifies if current != null then {current} else {}
      ensures Valid() && View() == Latency.StartStage(old(View()), stage, now)
    {
      if current == null {
        return;
      }
      current.timings := current.timings + [Timing(stage, now, None, 0)];
    }

    method EndStage(stage: Stage, now: int)
      requires Valid()
      modifies if current != null then {current} else {}
      ensures Valid() && View() == Latency.EndStage(old(View()), stage, now)
    {
      if current == null {
        return;
      }
      var i := |current.timings|;
      while i > 0
        invariant 0 <= i <= |current.timings| && current.timings == old(current.timings)
        invariant forall j :: i <= j < |current.timings| ==> !IsOpen(current.timings[j], stage)
      {
        i := i - 1;
        var st := current.timings[i];
        if st.stage == stage && st.end.None? {
          CloseLastAt(current.timings, i, stage, now);
          current.timings := current.timings[i := st.(end := Some(now), duration := now - st.start)];
          return;
        }
      }
      NothingToClose(current.timings, stage, now);
    }

    /** The locked first half of `Emit`. */
    method TakeCurrent() returns (cl: ChunkLatency?)
      requires Valid()
      modifies this`current, this`detached
      ensures Valid() && View() == Detach(old(View()))
      ensures cl == old(current) && detached == old(detached) + if cl != null then {cl} else {}
    {
      cl := current;
      current := null;
      if cl != null {
        detached := detached + {cl};
      }
    }

    /** The second half: sum up, log, and give the chunk back to the pool. */
    method LogAndRecycle(cl: ChunkLatency) returns (event: Emitted)
      requires Valid() && cl in detached
      modifies this`pool, this`detached, cl`total
      ensures Valid() && View() == old(View()) && event == Report(old(cl.View()))
      ensures event.OutOfRange? <==> |old(cl.timings)| > 5
      ensures event.Event? ==> event.id == old(cl.id) && event.timings == old(cl.timings)
      ensures event.Event? && Honest(old(cl.timings)) ==> event.total == ClosedTime(old(cl.timings))
      ensures detached == old(detached) - {cl}
      ensures pool == if event.OutOfRange? then old(pool) else old(pool) + {cl}
    {
      var sum, i := 0, 0;
      while i < |cl.timings|
        invariant 0 <= i <= |cl.timings| && sum == Total(cl.timings[..i])
      {
        assert cl.timings[..i + 1][..i] == cl.timings[..i];
        sum := sum + cl.timings[i].duration;
        i := i + 1;
      }
      assert cl.timings[..i] == cl.timings;
      if Honest(cl.timings) {
        TotalIsClosedTime(cl.timings);
      }
      cl.total := sum;
      detached := detached - {cl};
      if |cl.timings| > MAX_STAGES {
        return OutOfRange;
      }
      event := Event(cl.id, cl.timings, sum);
      pool := pool + {cl};
    }
  }

  /** A program that uses one tracker through its five calls, and keeps the chunks it took out. */
  class Client {
    const tracker: LatencyTracker
    var taken: seq<ChunkLatency>
    var events: seq<Emitted>

    /** The chunks on their way to the log, each once. */
    ghost predicate Valid()
      reads this, tracker
    {
      && tracker.Valid() && tracker.detached == (set cl | cl in taken)
      && (forall i, j :: 0 <= i < j < |taken| ==> taken[i] != taken[j])
    }

    ghost function Objects(): set<ChunkLatency>
      reads this, tracker
    {
      tracker.Objects() + set cl | cl in taken
    }

    ghost function View(): Machine
      reads this, tracker, Objects()
    {
      Machine(tracker.View(), Views(taken), events)
    }

    constructor ()
      ensures Valid() && View() == DoAll([]) && fresh(tracker) && fresh(Objects())
    {
      tracker := new LatencyTracker();
      taken, events := [], [];
    }

    /** Starting a new chunk; what is on its way to the log stays as it is. */
    method Reset(recycle: bool)
      requires Valid()
      modifies tracker, Objects()
      ensures Valid() && fresh(Objects() - old(Objects()))
      ensures View() == Do(old(View()), CallReset)
    {
      ghost var before := Views(taken);
      tracker.Reset(recycle);
      assert Views(taken) == before;
    }

    method StartStage(stage: Stage, now: int)
      requires Valid()
      modifies Objects()
      ensures Valid() && Objects() == old(Objects())
      ensures View() == Do(old(View()), CallStart(stage, now))
    {
      ghost var before := Views(taken);
      tracker.StartStage(stage, now);
      assert Views(taken) == before;
    }

    method EndStage(stage: Stage, now: int)
      requires Valid()
      modifies Objects()
      ensures Valid() && Objects() == old(Objects())
      ensures View() == Do(old(View()), CallEnd(stage, now))
    {
      ghost var before := Views(taken);
      tracker.EndStage(stage, now);
      assert Views(taken) == before;
    }

    method Take()
      requires Valid()
      modifies this, tracker
      ensures Valid() && Objects() == old(Objects())
      ensures View() == Do(old(View()), CallTake)
    {
      ghost var before := Views(taken);
      var cl := tracker.TakeCurrent();
      assert Views(taken) == before;
      if cl != null {
        taken := taken + [cl];
      }
    }

    method Log(k: nat)
      requires Valid()
      modifies this, tracker, Objects()
      ensures Valid() && Objects() <= old(Objects())
      ensures View() == Do(old(View()), CallLog(k))
    {
      if k < |taken| {
        ghost var before := Views(taken);
        var event := tracker.LogAndRecycle(taken[k]);
        assert Views(taken) == before;
        assert event == Report(before[k]);
        taken := taken[..k] + taken[k + 1..];
        assert Views(taken) == before[..k] + before[k + 1..];
        events := events + [event];
      }
    }
  }

  ghost function Views(taken: seq<ChunkLatency>): seq<Chunk>
    reads taken
  {
    seq(|taken|, i requires 0 <= i < |taken| reads taken => taken[i].View())
  }

  /**
   Any calls in any order, with any recycled object at each reset, and any calls between taking a chunk
   out and logging it: the events are those of the tracker that allocates anew, so what is logged is what
   was taken.
   */
  method Drive(calls: seq<Call>, recycle: seq<bool>) returns (events: seq<Emitted>)
    requires |recycle| == |calls|
    ensures events == DoAll(calls).events
  {
    var client := new Client();
    for i := 0 to |calls|
      invariant client.Valid() && fresh(client) && fresh(client.tracker) && fresh(client.Objects())
      invariant client.View() == DoAll(calls[..i])
    {
      OneMoreCall(calls[..i], calls[i]);
      assert calls[..i + 1] == calls[..i] + [calls[i]];
      match calls[i]
      case CallReset => client.Reset(recycle[i]);
      case CallStart(stage, now) => client.StartStage(stage, now);
      case CallEnd(stage, now) => client.EndStage(stage, now);
      case CallTake => client.Take();
      case CallLog(k) => client.Log(k);
    }
    assert calls[..|calls|] == calls;
    events := client.events;
  }

  /** So the two goroutines of a half, however they interleave, see at most one event, and a sound one. */
  method DriveHalf(steps: seq<Step>, recycle: seq<bool>) returns (events: seq<Emitted>)
    requires |recycle| == |CallsOf(steps)|
    ensures events == Run(steps).machine.events
    ensures |events| <= 1 && forall e :: e in events ==> e.Event? && DistinctStages(e.timings) && |e.timings| <= MAX_STAGES && e.total == ClosedTime(e.timings)
  {
    RunIsItsCalls(steps);
    EmissionsAreSound(steps);
    events := Drive(CallsOf(steps), recycle);
  }
}
