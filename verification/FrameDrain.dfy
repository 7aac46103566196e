/**
 `drainOldest`: a producer hands audio frames to a bounded channel, dropping the oldest one
 when it is full. A consumer may receive at any point between the three non-blocking
 selects. Frames are identified by the order in which they are produced.
 */
module FrameDrain {

  /** Where the producer stands: done, about to discard the oldest, or about to send again. */
  datatype Phase = Idle | Discarding | Resending

  datatype State = State(
    capacity: nat,
    buffer: seq<nat>,
    phase: Phase,
    produced: nat,
    received: seq<nat>,
    dropped: seq<nat>,
    lost: seq<nat>)

  function Init(capacity: nat): State {
    State(capacity, [], Idle, 0, [], [], [])
  }

  /** First select: send the new frame if there is room. */
  function Offer(s: State): State {
    var v := s.produced;
    if |s.buffer| < s.capacity then s.(produced := v + 1, buffer := s.buffer + [v])
    else s.(produced := v + 1, phase := Discarding)
  }

  /** Second select: take the oldest frame out, unless the consumer emptied the channel. */
  function Discard(s: State): State {
    if s.buffer == [] then s.(phase := Resending)
    else s.(phase := Resending, buffer := s.buffer[1..], dropped := s.dropped + [s.buffer[0]])
  }

  /** Third select: send the frame in hand, or give it up. */
  function Resend(s: State): State
    requires s.produced > 0
  {
    var v := s.produced - 1;
    if |s.buffer| < s.capacity then s.(phase := Idle, buffer := s.buffer + [v])
    else s.(phase := Idle, lost := s.lost + [v])
  }

  function Receive(s: State): State
    requires s.buffer != []
  {
    s.(buffer := s.buffer[1..], received := s.received + [s.buffer[0]])
  }

  datatype Step = Produce | Consume

  /** The producer's next select, or one receive by the consumer if there is something to receive. */
  function Apply(s: State, step: Step): (s': State)
    requires s.phase.Idle? || s.produced > 0
    ensures (s'.phase.Idle? || s'.produced > 0) && s'.capacity == s.capacity
  {
    match step
    case Consume => if s.buffer == [] then s else Receive(s)
    case Produce =>
      match s.phase
      case Idle => Offer(s)
      case Discarding => Discard(s)
      case Resending => Resend(s)
  }

  /** The frames delivered or on their way, in order. */
  function Passed(s: State): seq<nat> {
    s.received + s.buffer
  }

  predicate Increasing(xs: seq<nat>) {
    forall i, j :: 0 <= i < j < |xs| ==> xs[i] < xs[j]
  }

  /** The frame the producer still holds, if any. */
  function Held(s: State): nat {
    if s.phase.Idle? then 0 else 1
  }

  ghost predicate Inv(s: State) {
    && |s.buffer| <= s.capacity && s.lost == []
    && (s.phase.Idle? || s.produced > 0)
    && (s.phase.Resending? ==> |s.buffer| < s.capacity)
    && Increasing(Passed(s)) && Increasing(s.dropped)
    && (forall k :: k in Passed(s) ==> k < s.produced - Held(s) && k !in s.dropped)
    && (forall k :: k in s.dropped ==> k < s.produced - 1)
    && (forall k :: 0 <= k < s.produced - Held(s) ==> k in Passed(s) || k in s.dropped)
    && |Passed(s)| + |s.dropped| + Held(s) == s.produced
    && (s.dropped != [] && s.buffer != [] ==> s.dropped[|s.dropped| - 1] < s.buffer[0])
  }

  lemma PassedAt(s: State, i: nat)
    requires i < |s.buffer|
    ensures |s.received| + i < |Passed(s)| && Passed(s)[|s.received| + i] == s.buffer[i]
    ensures s.buffer[i] in Passed(s)
  {
  }

  lemma ReceiveKeeps(s: State)
    requires Inv(s) && s.buffer != []
    ensures Inv(Receive(s)) && Passed(Receive(s)) == Passed(s)
  {
    var s' := Receive(s);
    assert Passed(s') == Passed(s);
    PassedAt(s, 0);
    if |s.buffer| > 1 {
      PassedAt(s, 1);
    }
  }

  /** Taking one element out of an increasing sequence. */
  lemma TakeOut(xs: seq<nat>, n: nat, ys: seq<nat>)
    requires n < |xs| && Increasing(xs) && ys == xs[..n] + xs[n + 1..]
    ensures Increasing(ys)
    ensures forall k :: k in ys <==> k in xs && k != xs[n]
  {
    forall i | 0 <= i < |ys| ensures ys[i] == xs[if i < n then i else i + 1] {
    }
    forall k | k in xs && k != xs[n] ensures k in ys {
      var i :| 0 <= i < |xs| && xs[i] == k;
      assert ys[if i < n then i else i - 1] == k;
    }
  }

  lemma DroppedGrows(s: State)
    requires Inv(s) && s.phase.Discarding? && s.buffer != []
    ensures var s' := Discard(s); Increasing(s'.dropped) && forall k :: k in s'.dropped <==> k in s.dropped || k == s.buffer[0]
    ensures s.buffer[0] in Passed(s)
    ensures |s.buffer| > 1 ==> s.buffer[0] < s.buffer[1]
  {
    PassedAt(s, 0);
    if |s.buffer| > 1 {
      PassedAt(s, 1);
    }
    forall i | 0 <= i < |s.dropped| ensures s.dropped[i] <= s.dropped[|s.dropped| - 1] {
    }
  }

  lemma DiscardKeeps(s: State)
    requires Inv(s) && s.phase.Discarding? && s.capacity > 0
    ensures Inv(Discard(s))
  {
    hide Increasing;
    if s.buffer != [] {
      var s', n := Discard(s), |s.received|;
      DroppedGrows(s);
      assert Passed(s)[n] == s.buffer[0];
      assert Passed(s') == Passed(s)[..n] + Passed(s)[n + 1..];
      TakeOut(Passed(s), n, Passed(s'));
    }
  }

  lemma AppendKeeps(s: State, v: nat)
    requires Increasing(Passed(s)) && forall k :: k in Passed(s) || k in s.dropped ==> k < v
    ensures Increasing(Passed(s) + [v])
    ensures s.dropped != [] ==> s.dropped[|s.dropped| - 1] < v
  {
    assert forall i :: 0 <= i < |Passed(s)| ==> Passed(s)[i] in Passed(s);
    assert s.dropped != [] ==> s.dropped[|s.dropped| - 1] in s.dropped;
  }

  lemma OfferKeeps(s: State)
    requires Inv(s) && s.phase.Idle? && s.capacity > 0
    ensures Inv(Offer(s))
  {
    if |s.buffer| < s.capacity {
      AppendKeeps(s, s.produced);
      assert Passed(Offer(s)) == Passed(s) + [s.produced];
    }
  }

  lemma ResendKeeps(s: State)
    requires Inv(s) && s.phase.Resending?
    ensures Inv(Resend(s))
  {
    AppendKeeps(s, s.produced - 1);
    assert Passed(Resend(s)) == Passed(s) + [s.produced - 1];
  }

  lemma StepKeepsInv(s: State, step: Step)
    requires Inv(s) && s.capacity > 0
    ensures Inv(Apply(s, step))
  {
    match step
    case Consume =>
      if s.buffer != [] {
        ReceiveKeeps(s);
      }
    case Produce =>
      match s.phase
      case Idle => OfferKeeps(s);
      case Discarding => DiscardKeeps(s);
      case Resending => ResendKeeps(s);
  }

  function Run(s: State, steps: seq<Step>): State
    requires s.phase.Idle? || s.produced > 0
    decreases |steps|
  {
    if steps == [] then s else Run(Apply(s, steps[0]), steps[1..])
  }

  lemma {:induction false} RunKeepsInv(s: State, steps: seq<Step>)
    requires Inv(s) && s.capacity > 0
    ensures Inv(Run(s, steps)) && Run(s, steps).capacity == s.capacity
    decreases |steps|
  {
    if steps != [] {
      StepKeepsInv(s, steps[0]);
      RunKeepsInv(Apply(s, steps[0]), steps[1..]);
    }
  }

  /**
   For every interleaving of the producer's selects with receives: no new frame is lost, every frame
   is received, buffered, dropped or in hand and nowhere twice, deliveries are in order, and the last
   frame produced is never the one dropped.
   */
  lemma EveryFrameIsAccountedFor(capacity: nat, steps: seq<Step>)
    requires capacity > 0
    ensures var s := Run(Init(capacity), steps);
      && s.lost == []
      && |s.received| + |s.buffer| + |s.dropped| + Held(s) == s.produced
      && (forall k :: 0 <= k < s.produced - Held(s) ==> (k in Passed(s) <==> k !in s.dropped))
      && Increasing(s.received + s.buffer)
      && s.produced - 1 !in s.dropped
  {
    RunKeepsInv(Init(capacity), steps);
  }

  lemma LargestIsLast(xs: seq<nat>, v: nat)
    requires Increasing(xs) && v in xs && forall k :: k in xs ==> k <= v
    ensures xs[|xs| - 1] == v
  {
    var i :| 0 <= i < |xs| && xs[i] == v;
    assert xs[|xs| - 1] in xs;
  }

  /** When the producer is idle, the newest frame is the last one delivered or the last in the channel. */
  lemma NewestIsLast(capacity: nat, steps: seq<Step>)
    requires capacity > 0
    ensures var s := Run(Init(capacity), steps);
      s.phase.Idle? && s.produced > 0 ==> Passed(s) != [] && Passed(s)[|Passed(s)| - 1] == s.produced - 1
  {
    hide Inv, Run;
    InitInv(capacity);
    RunKeepsInv(Init(capacity), steps);
    var s := Run(Init(capacity), steps);
    if s.phase.Idle? && s.produced > 0 {
      NewestPassed(s);
    }
  }

  lemma NewestPassed(s: State)
    requires Inv(s) && s.phase.Idle? && s.produced > 0
    ensures Passed(s) != [] && Passed(s)[|Passed(s)| - 1] == s.produced - 1
  {
    assert s.produced - 1 in Passed(s);
    LargestIsLast(Passed(s), s.produced - 1);
  }

  lemma InitInv(capacity: nat)
    ensures Inv(Init(capacity))
  {
  }

  lemma BufferBound(s: State)
    requires Inv(s)
    ensures |s.buffer| <= s.capacity && (s.buffer != [] ==> s.produced > 0)
  {
    if s.buffer != [] {
      PassedAt(s, 0);
    }
  }

  /** With the one-frame channel of the pipeline, an idle producer leaves nothing stale: a receive gives the newest frame. */
  lemma SingleSlotIsFresh(steps: seq<Step>)
    ensures var s := Run(Init(1), steps);
      s.phase.Idle? && s.buffer != [] ==> s.buffer == [s.produced - 1]
  {
    hide Inv, Run;
    NewestIsLast(1, steps);
    InitInv(1);
    RunKeepsInv(Init(1), steps);
    var s := Run(Init(1), steps);
    BufferBound(s);
    if s.phase.Idle? && s.buffer != [] {
      assert Passed(s)[|Passed(s)| - 1] == s.buffer[0];
    }
  }

  // ---------------------------------------------------------------------------
  // The function itself
  // ---------------------------------------------------------------------------

  ghost function ReceiveMany(s: State, n: nat): (s': State)
    requires n <= |s.buffer|
    ensures s' == s.(buffer := s'.buffer, received := s'.received)
    decreases n
  {
    if n == 0 then s else ReceiveMany(Receive(s), n - 1)
  }

  lemma {:induction false} ReceiveManyTakesPrefix(s: State, n: nat)
    requires n <= |s.buffer|
    ensures ReceiveMany(s, n) == s.(buffer := s.buffer[n..], received := s.received + s.buffer[..n])
    decreases n
  {
    if n == 0 {
      assert s.buffer[0..] == s.buffer && s.received + s.buffer[..0] == s.received;
    } else {
      ReceiveManyTakesPrefix(Receive(s), n - 1);
      assert s.buffer[1..][n - 1..] == s.buffer[n..];
      assert [s.buffer[0]] + s.buffer[1..][..n - 1] == s.buffer[..n];
      assert s.received + [s.buffer[0]] + s.buffer[1..][..n - 1] == s.received + ([s.buffer[0]] + s.buffer[1..][..n - 1]);
    }
  }

  class FrameChannel {
    const capacity: nat
    var buffer: seq<nat>
    var produced: nat
    var received: seq<nat>
    var dropped: seq<nat>

    constructor (capacity: nat)
      ensures View() == Init(capacity)
    {
      this.capacity := capacity;
      buffer, produced, received, dropped := [], 0, [], [];
    }

    function View(): State
      reads this
    {
      State(capacity, buffer, Idle, produced, received, dropped, [])
    }

    function Frames(): Traffic
      reads this
    {
      Traffic(buffer, received, dropped)
    }

    /** A non-blocking send. */
    method TrySend(v: nat) returns (sent: bool)
      modifies this`buffer
      ensures sent <==> |old(buffer)| < capacity
      ensures buffer == old(buffer) + if sent then [v] else []
    {
      sent := |buffer| < capacity;
      if sent {
        buffer := buffer + [v];
      }
    }

    /** A non-blocking receive whose frame is thrown away. */
    method DropOldest()
      modifies this`buffer, this`dropped
      ensures Frames() == Thrown(old(Frames()))
    {
      if buffer != [] {
        dropped, buffer := dropped + [buffer[0]], buffer[1..];
      }
    }

    /** The consumer receives up to `n` frames. */
    method Consume(n: nat)
      modifies this`buffer, this`received
      ensures Frames() == Taken(old(Frames()), n)
    {
      var k := Least(n, |buffer|);
      received, buffer := received + buffer[..k], buffer[k..];
    }

    /**
     Sends the next frame. The consumer receives `early` frames between the first two selects and
     `late` frames between the last two, at most what it finds.
     */
    method DrainOldest(early: nat, late: nat)
      requires capacity > 0 && |buffer| <= capacity
      modifies this
      ensures |buffer| <= capacity && buffer != [] && buffer[|buffer| - 1] == old(produced)
      ensures produced == old(produced) + 1
      ensures |old(buffer)| < capacity ==> View() == Offer(old(View()))
      ensures |old(buffer)| == capacity ==> View() == Displaced(old(View()), early, late)
      ensures |old(buffer)| < capacity ==> buffer == old(buffer) + [old(produced)] && dropped == old(dropped) && received == old(received)
      ensures |old(buffer)| == capacity && early == late == 0 ==>
        buffer == old(buffer)[1..] + [old(produced)] && dropped == old(dropped) + [old(buffer)[0]] && received == old(received)
    {
      hide Displaced, Offer, Taken, Thrown;
      ghost var s0 := View();
      OfferIs(s0);
      var v := produced;
      produced := produced + 1;
      var sent := TrySend(v);
      if sent {
        return;
      }
      assert Frames() == Traffic(s0.buffer, s0.received, s0.dropped);
      Consume(early);
      DropOldest();
      Consume(late);
      DisplacedIs(s0, early, late);
      WithoutReceives(Traffic(s0.buffer, s0.received, s0.dropped));
      assert Frames() == Taken(Thrown(Taken(Traffic(s0.buffer, s0.received, s0.dropped), early)), late);
      sent := TrySend(v);
    }
  }

  /** What the selects do to a full channel, with receives in between. */
  ghost function Displaced(s: State, early: nat, late: nat): State
    requires |s.buffer| == s.capacity
  {
    var s1 := Offer(s);
    var s2 := Discard(ReceiveMany(s1, Least(early, |s1.buffer|)));
    Resend(ReceiveMany(s2, Least(late, |s2.buffer|)))
  }

  lemma OfferIs(s: State)
    ensures |s.buffer| < s.capacity ==> Offer(s) == s.(produced := s.produced + 1, buffer := s.buffer + [s.produced])
  {
  }

  datatype Traffic = Traffic(buffer: seq<nat>, received: seq<nat>, dropped: seq<nat>)

  /** Up to `n` of the oldest buffered frames are received. */
  function Taken(x: Traffic, n: nat): Traffic {
    var k := Least(n, |x.buffer|);
    Traffic(x.buffer[k..], x.received + x.buffer[..k], x.dropped)
  }

  /** The oldest buffered frame, if there is one, is thrown away. */
  function Thrown(x: Traffic): Traffic {
    if x.buffer == [] then x else Traffic(x.buffer[1..], x.received, x.dropped + [x.buffer[0]])
  }

  /** A consumer that receives nothing leaves the oldest frame to be thrown away. */
  lemma WithoutReceives(x: Traffic)
    requires x.buffer != []
    ensures Taken(Thrown(Taken(x, 0)), 0) == Traffic(x.buffer[1..], x.received, x.dropped + [x.buffer[0]])
  {
    assert Taken(x, 0) == x;
    var y := Thrown(x);
    assert y.received + y.buffer[..0] == y.received;
  }

  /** On a full channel the oldest frame that the consumer leaves is thrown away, and the new one gets in behind the others. */
  lemma DisplacedIs(s: State, early: nat, late: nat)
    requires |s.buffer| == s.capacity > 0
    ensures var x := Taken(Thrown(Taken(Traffic(s.buffer, s.received, s.dropped), early)), late);
      && |x.buffer| < s.capacity
      && Displaced(s, early, late) ==
         s.(phase := Idle, produced := s.produced + 1, buffer := x.buffer + [s.produced], received := x.received, dropped := x.dropped)
  {
    var s1, k := Offer(s), Least(early, |s.buffer|);
    ReceiveManyTakesPrefix(s1, k);
    var s2 := Discard(ReceiveMany(s1, k));
    ReceiveManyTakesPrefix(s2, Least(late, |s2.buffer|));
  }

  function Least(a: nat, b: nat): nat {
    if a < b then a else b
  }
}
