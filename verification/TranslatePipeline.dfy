/**
 The concurrent translation stage: one task per accepted phrase, finishing in any
 order, and an ordered drainer that restores arrival order before speech synthesis.

 The protocol is a step system over the channels, the wait group and the phrase goroutines.
 Outcomes of the remote services are prophecies of a `World`; `Sequential` is the
 one-phrase-at-a-time pipeline the concurrent one must equal.
 */
module TranslatePipeline {
  import opened Common

  type Chunk = seq<Byte>

  const RESULT_CAPACITY := 16
  const AUDIO_CAPACITY := 8
  const TRANSCRIPT_CAPACITY := 4

  /** What the environment will do: the transcripts, and the answer to each service call. */
  datatype World = World(
    input: seq<string>,
    sourceLang: string,
    prompt: string,
    detect: string -> Option<string>,
    translate: (nat, string) -> Option<string>,
    synthesize: (nat, string) -> Option<seq<Chunk>>)

  // ---------------------------------------------------------------------------
  // Which phrases are accepted
  // ---------------------------------------------------------------------------

  predicate IsSpace(c: char) {
    c in {' ', '\t', '\n', '\r', '\U{000B}', '\U{000C}', '\U{0085}', '\U{00A0}'}
  }

  function TrimLeft(s: string): string {
    if s != "" && IsSpace(s[0]) then TrimLeft(s[1..]) else s
  }

  function TrimRight(s: string): string {
    if s != "" && IsSpace(s[|s| - 1]) then TrimRight(s[..|s| - 1]) else s
  }

  function Lower(c: char): char {
    if 'A' <= c <= 'Z' then c - 'A' + 'a' else c
  }

  predicate EqualFold(a: string, b: string) {
    |a| == |b| && forall i :: 0 <= i < |a| ==> Lower(a[i]) == Lower(b[i])
  }

  predicate IsPromptEcho(w: World, text: string) {
    w.prompt != "" && TrimRight(TrimLeft(text)) == TrimRight(TrimLeft(w.prompt))
  }

  predicate IsExpectedLanguage(w: World, text: string) {
    |text| < 8 || w.detect(text).None? || EqualFold(w.detect(text).value, w.sourceLang)
  }

  predicate Accepts(w: World, text: string) {
    text != "" && !IsPromptEcho(w, text) && IsExpectedLanguage(w, text)
  }

  // ---------------------------------------------------------------------------
  // The sequential pipeline
  // ---------------------------------------------------------------------------

  /** The texts the sequential pipeline hands to speech synthesis, `k` phrases having been accepted before. */
  function Sequential(w: World, input: seq<string>, k: nat): seq<string> {
    if input == [] then []
    else if !Accepts(w, input[0]) then Sequential(w, input[1..], k)
    else Spoken(w.translate(k, input[0])) + Sequential(w, input[1..], k + 1)
  }

  /** The audio the sequential pipeline plays, phrase by phrase. */
  function SequentialAudio(w: World, input: seq<string>, k: nat): seq<Chunk> {
    if input == [] then []
    else if !Accepts(w, input[0]) then SequentialAudio(w, input[1..], k)
    else Played(w, k, w.translate(k, input[0])) + SequentialAudio(w, input[1..], k + 1)
  }

  function Spoken(outcome: Option<string>): seq<string> {
    if outcome.Some? then [outcome.value] else []
  }

  function Played(w: World, k: nat, outcome: Option<string>): seq<Chunk> {
    if outcome.None? || w.synthesize(k, outcome.value).None? then []
    else w.synthesize(k, outcome.value).value
  }

  // ---------------------------------------------------------------------------
  // Accepted phrases by number
  // ---------------------------------------------------------------------------

  function Accepted(w: World, input: seq<string>): seq<string> {
    if input == [] then []
    else (if Accepts(w, input[0]) then [input[0]] else []) + Accepted(w, input[1..])
  }

  function Phrases(w: World): seq<string> {
    Accepted(w, w.input)
  }

  function Outcome(w: World, k: nat): Option<string>
    requires k < |Phrases(w)|
  {
    w.translate(k, Phrases(w)[k])
  }

  /** Texts spoken for the phrases numbered below `n`. */
  function Texts(w: World, n: nat): seq<string>
    requires n <= |Phrases(w)|
  {
    if n == 0 then [] else Texts(w, n - 1) + Spoken(Outcome(w, n - 1))
  }

  /** Audio played for the phrases numbered below `n`. */
  function Audio(w: World, n: nat): seq<Chunk>
    requires n <= |Phrases(w)|
  {
    if n == 0 then [] else Audio(w, n - 1) + Played(w, n - 1, Outcome(w, n - 1))
  }

  lemma {:induction false} AcceptedConcat(w: World, a: seq<string>, b: seq<string>)
    ensures Accepted(w, a + b) == Accepted(w, a) + Accepted(w, b)
  {
    if a == [] {
      assert a + b == b;
    } else {
      assert (a + b)[0] == a[0] && (a + b)[1..] == a[1..] + b;
      AcceptedConcat(w, a[1..], b);
    }
  }

  /** The transcript at position `i`, if accepted, is the phrase with the next free number. */
  lemma NextPhrase(w: World, i: nat)
    requires i < |w.input|
    ensures var n := |Accepted(w, w.input[..i])|;
      && |Accepted(w, w.input[..i + 1])| == n + (if Accepts(w, w.input[i]) then 1 else 0)
      && (Accepts(w, w.input[i]) ==> n < |Phrases(w)| && Phrases(w)[n] == w.input[i])
      && |Accepted(w, w.input[..i + 1])| <= |Phrases(w)|
  {
    var a, x, b := w.input[..i], [w.input[i]], w.input[i + 1..];
    assert w.input[..i + 1] == a + x && w.input == a + x + b;
    AcceptedConcat(w, a, x);
    AcceptedConcat(w, a + x, b);
    assert x[1..] == [];
    assert Accepted(w, x) == if Accepts(w, x[0]) then [x[0]] else [];
  }

  /** What the sequential pipeline still does from position `i` completes what numbering gave up to `i`. */
  ghost predicate CompletesFrom(w: World, i: nat)
    requires i <= |w.input| && |Accepted(w, w.input[..i])| <= |Phrases(w)|
  {
    var n := |Accepted(w, w.input[..i])|;
    && Texts(w, n) + Sequential(w, w.input[i..], n) == Texts(w, |Phrases(w)|)
    && Audio(w, n) + SequentialAudio(w, w.input[i..], n) == Audio(w, |Phrases(w)|)
  }

  lemma SequentialStep(w: World, i: nat)
    requires i < |w.input|
    requires |Accepted(w, w.input[..i])| <= |Phrases(w)| && |Accepted(w, w.input[..i + 1])| <= |Phrases(w)|
    requires CompletesFrom(w, i + 1)
    ensures CompletesFrom(w, i)
  {
    hide Accepts, Spoken, Played, Phrases;
    NextPhrase(w, i);
    var n, rest := |Accepted(w, w.input[..i])|, w.input[i..];
    assert rest[0] == w.input[i] && rest[1..] == w.input[i + 1..];
    if Accepts(w, w.input[i]) {
      var t, p := Spoken(Outcome(w, n)), Played(w, n, Outcome(w, n));
      assert Texts(w, n + 1) == Texts(w, n) + t;
      assert Audio(w, n + 1) == Audio(w, n) + p;
      Regroup(Texts(w, n), t, Sequential(w, rest[1..], n + 1));
      Regroup(Audio(w, n), p, SequentialAudio(w, rest[1..], n + 1));
    }
  }

  lemma Regroup<T>(a: seq<T>, b: seq<T>, c: seq<T>)
    ensures a + (b + c) == a + b + c
  {
  }

  lemma {:induction false} SequentialFrom(w: World, i: nat)
    requires i <= |w.input|
    ensures |Accepted(w, w.input[..i])| <= |Phrases(w)| && CompletesFrom(w, i)
    decreases |w.input| - i
  {
    if i == |w.input| {
      assert w.input[..i] == w.input && w.input[i..] == [];
    } else {
      NextPhrase(w, i);
      SequentialFrom(w, i + 1);
      SequentialStep(w, i);
    }
  }

  /** Numbering the accepted phrases and speaking them by number is the sequential pipeline. */
  lemma SequentialIsTexts(w: World)
    ensures Sequential(w, w.input, 0) == Texts(w, |Phrases(w)|)
    ensures SequentialAudio(w, w.input, 0) == Audio(w, |Phrases(w)|)
  {
    SequentialFrom(w, 0);
    assert w.input[..0] == [] && w.input[0..] == w.input;
    assert Texts(w, 0) == [] && Audio(w, 0) == [];
  }

  lemma {:induction false} TextsGrow(w: World, m: nat, n: nat)
    requires m <= n <= |Phrases(w)|
    ensures Texts(w, m) <= Texts(w, n)
    ensures Audio(w, m) <= Audio(w, n)
    decreases n
  {
    if m < n {
      TextsGrow(w, m, n - 1);
    }
  }

  // ---------------------------------------------------------------------------
  // The step system
  // ---------------------------------------------------------------------------

  datatype Result = Result(num: nat, outcome: Option<string>)

  datatype FanPhase = Reading | Waiting | Closed

  datatype DrainPhase = Receiving | Checking | Sending(chunks: seq<Chunk>) | Returned

  /** The translation tasks, their wait group, and the channel they send results on. */
  datatype Tasks = Tasks(
    seqNum: nat,
    translating: map<nat, string>,
    sending: map<nat, Option<string>>,
    finishing: set<nat>,
    wg: int,
    queue: seq<Result>,
    closed: bool,
    panicked: bool)

  /** The drainer's own variables: its reorder buffer, the next number, and what it handed out. */
  datatype Drainer = Drainer(
    pending: map<nat, Option<string>>,
    next: nat,
    spoken: seq<string>,
    transcripts: seq<string>)

  /** What reached the audio and transcript readers, and what is on its way to them. */
  datatype State = State(
    read: nat,
    fan: FanPhase,
    tasks: Tasks,
    phase: DrainPhase,
    drainer: Drainer,
    transcriptsRead: seq<string>,
    audio: seq<Chunk>,
    audioRead: seq<Chunk>,
    cancelled: bool)

  function Init(): State {
    State(0, Reading, Tasks(0, map[], map[], {}, 0, [], false, false),
          Receiving, Drainer(map[], 0, [], []), [], [], [], false)
  }

  function Launch(t: Tasks, text: string): Tasks {
    t.(seqNum := t.seqNum + 1, wg := t.wg + 1, translating := t.translating[t.seqNum := text])
  }

  function Finish(w: World, t: Tasks, k: nat): Tasks
    requires k in t.translating
  {
    t.(translating := t.translating - {k}, sending := t.sending[k := w.translate(k, t.translating[k])])
  }

  /** Sending on the closed channel would panic. */
  function Send(t: Tasks, k: nat): Tasks
    requires k in t.sending
  {
    if t.closed then t.(panicked := true)
    else t.(sending := t.sending - {k}, finishing := t.finishing + {k}, queue := t.queue + [Result(k, t.sending[k])])
  }

  function Done(t: Tasks, k: nat): Tasks {
    t.(finishing := t.finishing - {k}, wg := t.wg - 1)
  }

  function Insert(d: Drainer, r: Result): Drainer {
    d.(pending := d.pending[r.num := r.outcome])
  }

  /** Takes the result with the expected number out of the reorder buffer; the transcript channel is lossy. */
  function TakePending(d: Drainer): Drainer
    requires d.next in d.pending
  {
    var outcome := d.pending[d.next];
    Drainer(d.pending - {d.next}, d.next + 1, d.spoken + Spoken(outcome),
            if outcome.Some? && |d.transcripts| < TRANSCRIPT_CAPACITY then d.transcripts + [outcome.value] else d.transcripts)
  }

  /** After taking result `k`, synthesis either fails (or is skipped) or streams its chunks. */
  function AfterTake(w: World, k: nat, outcome: Option<string>): DrainPhase {
    if outcome.None? || w.synthesize(k, outcome.value).None? then Checking
    else Sending(w.synthesize(k, outcome.value).value)
  }

  datatype Step =
    | ReadTranscript
    | InputClosed
    | ObserveCancel
    | CloseResults
    | FinishTranslate(num: nat)
    | SendResult(num: nat)
    | TaskDone(num: nat)
    | TakeResult
    | EndOfResults
    | CheckPending
    | SendChunk
    | ChunksDone
    | AbortOnCancel
    | ConsumeAudio
    | ConsumeTranscript
    | Cancel

  predicate Enabled(w: World, s: State, step: Step) {
    match step
    case ReadTranscript => s.fan.Reading? && s.read < |w.input|
    case InputClosed => s.fan.Reading? && s.read == |w.input|
    case ObserveCancel => s.fan.Reading? && s.cancelled
    case CloseResults => s.fan.Waiting? && s.tasks.wg == 0
    case FinishTranslate(k) => k in s.tasks.translating
    case SendResult(k) => k in s.tasks.sending && (s.tasks.closed || |s.tasks.queue| < RESULT_CAPACITY)
    case TaskDone(k) => k in s.tasks.finishing
    case TakeResult => s.phase.Receiving? && s.tasks.queue != []
    case EndOfResults => s.phase.Receiving? && s.tasks.queue == [] && s.tasks.closed
    case CheckPending => s.phase.Checking?
    case SendChunk => s.phase.Sending? && s.phase.chunks != [] && |s.audio| < AUDIO_CAPACITY
    case ChunksDone => s.phase.Sending? && s.phase.chunks == []
    case AbortOnCancel => s.phase.Sending? && s.phase.chunks != [] && s.cancelled
    case ConsumeAudio => s.audio != []
    case ConsumeTranscript => s.drainer.transcripts != []
    case Cancel => !s.cancelled
  }

  function Read(w: World, s: State): State
    requires s.read < |w.input|
  {
    var text := w.input[s.read];
    s.(read := s.read + 1, tasks := if Accepts(w, text) then Launch(s.tasks, text) else s.tasks)
  }

  function Take(s: State): State
    requires s.tasks.queue != []
  {
    s.(tasks := s.tasks.(queue := s.tasks.queue[1..]), phase := Checking, drainer := Insert(s.drainer, s.tasks.queue[0]))
  }

  function Check(w: World, s: State): State {
    var d := s.drainer;
    if d.next !in d.pending then s.(phase := Receiving)
    else s.(drainer := TakePending(d), phase := AfterTake(w, d.next, d.pending[d.next]))
  }

  function Apply(w: World, s: State, step: Step): State
    requires Enabled(w, s, step)
  {
    match step
    case ReadTranscript => Read(w, s)
    case InputClosed => s.(fan := Waiting)
    case ObserveCancel => s.(fan := Waiting)
    case CloseResults => s.(fan := Closed, tasks := s.tasks.(closed := true))
    case FinishTranslate(k) => s.(tasks := Finish(w, s.tasks, k))
    case SendResult(k) => s.(tasks := Send(s.tasks, k))
    case TaskDone(k) => s.(tasks := Done(s.tasks, k))
    case TakeResult => Take(s)
    case EndOfResults => s.(phase := Returned)
    case CheckPending => Check(w, s)
    case SendChunk => s.(audio := s.audio + [s.phase.chunks[0]], phase := Sending(s.phase.chunks[1..]))
    case ChunksDone => s.(phase := Checking)
    case AbortOnCancel => s.(phase := Returned)
    case ConsumeAudio => s.(audioRead := s.audioRead + [s.audio[0]], audio := s.audio[1..])
    case ConsumeTranscript =>
      s.(transcriptsRead := s.transcriptsRead + [s.drainer.transcripts[0]],
         drainer := s.drainer.(transcripts := s.drainer.transcripts[1..]))
    case Cancel => s.(cancelled := true)
  }

  predicate ValidRun(w: World, s: State, steps: seq<Step>)
    decreases |steps|
  {
    steps == [] || (Enabled(w, s, steps[0]) && ValidRun(w, Apply(w, s, steps[0]), steps[1..]))
  }

  function RunFrom(w: World, s: State, steps: seq<Step>): State
    requires ValidRun(w, s, steps)
    decreases |steps|
  {
    if steps == [] then s else RunFrom(w, Apply(w, s, steps[0]), steps[1..])
  }

  // ---------------------------------------------------------------------------
  // What every step keeps
  // ---------------------------------------------------------------------------

  function Nums(rs: seq<Result>): set<nat> {
    if rs == [] then {} else {rs[0].num} + Nums(rs[1..])
  }

  /** The numbers `next..seqNum-1` are split between buffered, queued, sending and translating. */
  ghost predicate Partition(t: Tasks, pending: set<nat>, next: nat) {
    var queued := Nums(t.queue);
    && (forall k :: k in pending ==> next <= k < t.seqNum && k !in queued && k !in t.translating && k !in t.sending)
    && (forall k :: k in queued ==> next <= k < t.seqNum && k !in t.translating && k !in t.sending)
    && (forall k :: k in t.translating ==> next <= k < t.seqNum && k !in t.sending && k !in t.finishing)
    && (forall k :: k in t.sending ==> next <= k < t.seqNum && k !in t.finishing)
    && (forall k :: k in t.finishing ==> k < t.seqNum)
    && (forall k :: next <= k < t.seqNum ==> k in pending || k in queued || k in t.translating || k in t.sending)
    && |queued| == |t.queue|
    && next <= t.seqNum
  }

  /** The wait group counts the live tasks; the channel is closed only when there are none, so no send panics. */
  ghost predicate Counted(t: Tasks) {
    && t.wg == |t.translating| + |t.sending| + |t.finishing|
    && (t.closed ==> t.wg == 0)
    && !t.panicked
    && |t.queue| <= RESULT_CAPACITY
  }

  /** Every task and every queued result carries what its number asks for. */
  ghost predicate TaskValues(w: World, t: Tasks) {
    && t.seqNum <= |Phrases(w)|
    && (forall k :: k in t.translating ==> k < |Phrases(w)| && t.translating[k] == Phrases(w)[k])
    && (forall k :: k in t.sending ==> k < |Phrases(w)| && t.sending[k] == Outcome(w, k))
    && (forall i :: 0 <= i < |t.queue| ==> t.queue[i].num < |Phrases(w)| && t.queue[i].outcome == Outcome(w, t.queue[i].num))
  }

  ghost predicate PendingValues(w: World, pending: map<nat, Option<string>>) {
    forall k :: k in pending ==> k < |Phrases(w)| && pending[k] == Outcome(w, k)
  }

  /** What the drainer has spoken is what the first `next` phrases ask for. */
  ghost predicate SpokenSoFar(w: World, d: Drainer, transcriptsRead: seq<string>) {
    && d.next <= |Phrases(w)|
    && d.spoken == Texts(w, d.next)
    && |d.transcripts| <= TRANSCRIPT_CAPACITY
    && IsSubsequence(transcriptsRead + d.transcripts, d.spoken)
  }

  ghost predicate PlayedSoFar(w: World, next: nat, played: seq<Chunk>, phase: DrainPhase, cancelled: bool)
    requires next <= |Phrases(w)|
  {
    match phase
    case Sending(chunks) => played + chunks == Audio(w, next)
    case Returned => if cancelled then played <= Audio(w, next) else played == Audio(w, next)
    case _ => played == Audio(w, next)
  }

  /** The reader, the closer and the drainer agree on how far things are. */
  ghost predicate Phases(w: World, s: State) {
    && s.read <= |w.input|
    && s.tasks.seqNum == |Accepted(w, w.input[..s.read])|
    && |s.audio| <= AUDIO_CAPACITY
    && (s.tasks.closed <==> s.fan.Closed?)
    && (!s.fan.Reading? && !s.cancelled ==> s.read == |w.input|)
    && (s.phase.Receiving? ==> s.drainer.next !in s.drainer.pending)
    && (s.phase.Returned? && !s.cancelled ==>
          s.tasks.closed && s.tasks.queue == [] && s.drainer.pending == map[] && s.drainer.next == s.tasks.seqNum)
  }

  ghost predicate Inv(w: World, s: State) {
    && Counted(s.tasks)
    && Partition(s.tasks, s.drainer.pending.Keys, s.drainer.next)
    && TaskValues(w, s.tasks)
    && PendingValues(w, s.drainer.pending)
    && SpokenSoFar(w, s.drainer, s.transcriptsRead)
    && PlayedSoFar(w, s.drainer.next, s.audioRead + s.audio, s.phase, s.cancelled)
    && Phases(w, s)
  }

  lemma InitInv(w: World)
    ensures Inv(w, Init())
  {
    assert w.input[..0] == [];
  }

  lemma {:induction false} NumsAppend(rs: seq<Result>, r: Result)
    ensures Nums(rs + [r]) == Nums(rs) + {r.num}
  {
    if rs != [] {
      assert (rs + [r])[0] == rs[0] && (rs + [r])[1..] == rs[1..] + [r];
      NumsAppend(rs[1..], r);
    } else {
      assert ([r])[1..] == [];
    }
  }

  lemma {:induction false} NumsBound(rs: seq<Result>)
    ensures |Nums(rs)| <= |rs|
  {
    if rs != [] {
      NumsBound(rs[1..]);
    }
  }

  lemma NumsDistinctTail(rs: seq<Result>)
    requires rs != [] && |Nums(rs)| == |rs|
    ensures rs[0].num !in Nums(rs[1..]) && |Nums(rs[1..])| == |rs| - 1
    ensures Nums(rs) == {rs[0].num} + Nums(rs[1..])
  {
    NumsBound(rs[1..]);
    assert Nums(rs) == {rs[0].num} + Nums(rs[1..]);
  }

  ghost predicate TasksInv(w: World, t: Tasks, pending: set<nat>, next: nat) {
    Counted(t) && Partition(t, pending, next) && TaskValues(w, t)
  }

  lemma LaunchPlaces(t: Tasks, pending: set<nat>, next: nat, text: string)
    requires Partition(t, pending, next)
    ensures Partition(Launch(t, text), pending, next)
    ensures t.seqNum !in t.translating
  {
  }

  lemma LaunchKeeps(w: World, t: Tasks, pending: set<nat>, next: nat, text: string)
    requires TasksInv(w, t, pending, next)
    requires t.seqNum < |Phrases(w)| && text == Phrases(w)[t.seqNum] && !t.closed
    ensures TasksInv(w, Launch(t, text), pending, next)
  {
    LaunchPlaces(t, pending, next, text);
  }

  lemma FinishKeeps(w: World, t: Tasks, pending: set<nat>, next: nat, k: nat)
    requires TasksInv(w, t, pending, next) && k in t.translating
    ensures TasksInv(w, Finish(w, t, k), pending, next)
  {
    hide Partition, Outcome, Phrases;
    FinishPlaces(w, t, pending, next, k);
    assert Finish(w, t, k).translating.Keys == t.translating.Keys - {k};
    assert k !in t.sending ==> Finish(w, t, k).sending.Keys == t.sending.Keys + {k};
    ValueOf(w, t, k);
  }

  lemma FinishPlaces(w: World, t: Tasks, pending: set<nat>, next: nat, k: nat)
    requires Partition(t, pending, next) && k in t.translating
    ensures Partition(Finish(w, t, k), pending, next) && k !in t.sending
  {
  }

  lemma ValueOf(w: World, t: Tasks, k: nat)
    requires TaskValues(w, t) && k in t.translating
    ensures k < |Phrases(w)| && w.translate(k, t.translating[k]) == Outcome(w, k)
  {
  }

  lemma SendPlaces(t: Tasks, pending: set<nat>, next: nat, k: nat)
    requires Partition(t, pending, next) && k in t.sending && !t.closed
    ensures Partition(Send(t, k), pending, next)
  {
    NumsAppend(t.queue, Result(k, t.sending[k]));
  }

  lemma SendValues(w: World, t: Tasks, k: nat)
    requires TaskValues(w, t) && k in t.sending && !t.closed
    ensures TaskValues(w, Send(t, k))
  {
  }

  lemma SendKeeps(w: World, t: Tasks, pending: set<nat>, next: nat, k: nat)
    requires TasksInv(w, t, pending, next) && k in t.sending && |t.queue| < RESULT_CAPACITY
    ensures !t.closed && TasksInv(w, Send(t, k), pending, next)
  {
    assert |t.sending| > 0;
    SendPlaces(t, pending, next, k);
    SendValues(w, t, k);
    assert Send(t, k).sending.Keys == t.sending.Keys - {k};
  }

  lemma InsertedKeys(d: Drainer, r: Result)
    ensures Insert(d, r).pending.Keys == d.pending.Keys + {r.num}
  {
  }

  lemma TakePlaces(t: Tasks, d: Drainer)
    requires Partition(t, d.pending.Keys, d.next) && t.queue != []
    ensures Partition(t.(queue := t.queue[1..]), Insert(d, t.queue[0]).pending.Keys, d.next)
  {
    var head, tail, pending := t.queue[0].num, Nums(t.queue[1..]), d.pending.Keys;
    NumsDistinctTail(t.queue);
    InsertedKeys(d, t.queue[0]);
    MovesToPending(t, pending, d.next, head, tail);
  }

  lemma MovesToPending(t: Tasks, pending: set<nat>, next: nat, head: nat, tail: set<nat>)
    requires Partition(t, pending, next) && t.queue != [] && head == t.queue[0].num && tail == Nums(t.queue[1..])
    requires Nums(t.queue) == {head} + tail && head !in tail && |tail| == |t.queue| - 1
    ensures Partition(t.(queue := t.queue[1..]), pending + {head}, next)
  {
    hide Nums;
  }

  lemma TakeValues(w: World, t: Tasks, d: Drainer)
    requires TaskValues(w, t) && PendingValues(w, d.pending) && t.queue != []
    ensures TaskValues(w, t.(queue := t.queue[1..])) && PendingValues(w, Insert(d, t.queue[0]).pending)
  {
    var t' := t.(queue := t.queue[1..]);
    assert forall i :: 0 <= i < |t'.queue| ==> t'.queue[i] == t.queue[i + 1];
  }

  /** A transcript sent to the lossy channel, or dropped by it, stays in order. */
  lemma LossySend(read: seq<string>, buffer: seq<string>, spoken: seq<string>, text: string)
    requires IsSubsequence(read + buffer, spoken)
    ensures IsSubsequence(read + buffer, spoken + [text])
    ensures IsSubsequence(read + (buffer + [text]), spoken + [text])
  {
    SubsequenceAppend(read + buffer, spoken, text);
    assert read + (buffer + [text]) == read + buffer + [text];
  }

  /** Taking the expected result speaks exactly that phrase's text. */
  lemma TakePendingKeeps(w: World, d: Drainer, read: seq<string>)
    requires SpokenSoFar(w, d, read) && PendingValues(w, d.pending) && d.next in d.pending
    ensures SpokenSoFar(w, TakePending(d), read) && PendingValues(w, TakePending(d).pending)
  {
    hide IsSubsequence, Texts, PendingValues;
    NextText(w, d.pending, d.next);
    var outcome := d.pending[d.next];
    if outcome.Some? {
      LossySend(read, d.transcripts, d.spoken, outcome.value);
    } else {
      assert d.spoken + [] == d.spoken;
    }
  }

  lemma NextText(w: World, pending: map<nat, Option<string>>, k: nat)
    requires PendingValues(w, pending) && k in pending
    ensures k < |Phrases(w)| && Texts(w, k + 1) == Texts(w, k) + Spoken(pending[k])
    ensures PendingValues(w, pending - {k})
  {
  }

  lemma TakePendingKeepsTasks(w: World, t: Tasks, d: Drainer)
    requires Partition(t, d.pending.Keys, d.next) && d.next in d.pending
    ensures Partition(t, TakePending(d).pending.Keys, d.next + 1)
  {
    assert TakePending(d).pending.Keys == d.pending.Keys - {d.next};
  }

  lemma TakePendingPlays(w: World, d: Drainer, played: seq<Chunk>, cancelled: bool)
    requires d.next in d.pending && PendingValues(w, d.pending) && played == Audio(w, d.next)
    ensures PlayedSoFar(w, d.next + 1, played, AfterTake(w, d.next, d.pending[d.next]), cancelled)
  {
    var n := d.next + 1;
    assert Audio(w, n) == Audio(w, n - 1) + Played(w, n - 1, Outcome(w, n - 1));
    assert played + [] == played;
  }

  /** When the closed channel is empty, the expected number is past every assigned one. */
  lemma NothingLeft(t: Tasks, d: Drainer)
    requires Counted(t) && Partition(t, d.pending.Keys, d.next) && t.closed && t.queue == []
    requires d.next !in d.pending
    ensures d.next == t.seqNum && d.pending == map[]
  {
    assert |t.translating| == 0 && |t.sending| == 0;
    assert d.next !in t.translating && d.next !in t.sending && d.next !in d.pending.Keys;
    assert d.pending.Keys == {};
  }

  lemma ReadStep(w: World, s: State)
    requires Inv(w, s) && Enabled(w, s, ReadTranscript)
    ensures Inv(w, Read(w, s))
  {
    NextPhrase(w, s.read);
    if Accepts(w, w.input[s.read]) {
      LaunchKeeps(w, s.tasks, s.drainer.pending.Keys, s.drainer.next, w.input[s.read]);
    }
  }

  lemma CheckTakes(w: World, s: State)
    requires Inv(w, s) && s.phase.Checking? && s.drainer.next in s.drainer.pending
    ensures Inv(w, Check(w, s))
  {
    hide Partition, TaskValues, Counted, PendingValues, Texts, IsSubsequence, Audio, Played, Outcome, Phrases, Accepted;
    var d := s.drainer;
    TakePendingKeeps(w, d, s.transcriptsRead);
    TakePendingKeepsTasks(w, s.tasks, d);
    TakePendingPlays(w, d, s.audioRead + s.audio, s.cancelled);
  }

  lemma AudioStep(w: World, s: State, step: Step)
    requires Inv(w, s) && Enabled(w, s, step)
    requires step.SendChunk? || step.ChunksDone? || step.ConsumeAudio?
    ensures Inv(w, Apply(w, s, step))
  {
    hide Partition, TaskValues, Counted, PendingValues, Texts, IsSubsequence, Audio, Played, Outcome, Phrases, Accepted;
    match step
    case SendChunk =>
      var cs := s.phase.chunks;
      assert s.audioRead + (s.audio + [cs[0]]) + cs[1..] == s.audioRead + s.audio + cs;
    case ChunksDone =>
      assert s.audioRead + s.audio + s.phase.chunks == s.audioRead + s.audio;
    case ConsumeAudio =>
      assert s.audioRead + [s.audio[0]] + s.audio[1..] == s.audioRead + s.audio;
  }

  lemma TranscriptStep(w: World, s: State)
    requires Inv(w, s) && Enabled(w, s, ConsumeTranscript)
    ensures Inv(w, Apply(w, s, ConsumeTranscript))
  {
    hide Partition, TaskValues, Counted, PendingValues, PlayedSoFar, Texts, IsSubsequence, Audio, Phrases, Accepted;
    var t := s.drainer.transcripts;
    assert s.transcriptsRead + [t[0]] + t[1..] == s.transcriptsRead + t;
  }

  lemma TaskStep(w: World, s: State, step: Step)
    requires Inv(w, s) && Enabled(w, s, step)
    requires step.FinishTranslate? || step.SendResult?
    ensures Inv(w, Apply(w, s, step))
  {
    if step.FinishTranslate? {
      assert |s.tasks.translating| > 0;
      FinishKeeps(w, s.tasks, s.drainer.pending.Keys, s.drainer.next, step.num);
    } else {
      assert |s.tasks.sending| > 0;
      SendKeeps(w, s.tasks, s.drainer.pending.Keys, s.drainer.next, step.num);
    }
  }

  lemma TakeStep(w: World, s: State)
    requires Inv(w, s) && Enabled(w, s, TakeResult)
    ensures Inv(w, Take(s))
  {
    TakePlaces(s.tasks, s.drainer);
    TakeValues(w, s.tasks, s.drainer);
  }

  lemma DoneStep(w: World, s: State, k: nat)
    requires Inv(w, s) && k in s.tasks.finishing
    ensures Inv(w, s.(tasks := Done(s.tasks, k)))
  {
  }

  /** Every step of every task keeps the invariant. */
  lemma StepKeepsInv(w: World, s: State, step: Step)
    requires Inv(w, s) && Enabled(w, s, step)
    ensures Inv(w, Apply(w, s, step))
  {
    match step
    case ReadTranscript => ReadStep(w, s);
    case CheckPending =>
      if s.drainer.next in s.drainer.pending {
        CheckTakes(w, s);
      }
    case EndOfResults => NothingLeft(s.tasks, s.drainer);
    case FinishTranslate(_) => TaskStep(w, s, step);
    case SendResult(_) => TaskStep(w, s, step);
    case TaskDone(k) => DoneStep(w, s, k);
    case TakeResult => TakeStep(w, s);
    case SendChunk => AudioStep(w, s, step);
    case ChunksDone => AudioStep(w, s, step);
    case ConsumeAudio => AudioStep(w, s, step);
    case ConsumeTranscript => TranscriptStep(w, s);
    case AbortOnCancel =>
    case _ =>
  }

  lemma {:induction false} RunKeepsInv(w: World, s: State, steps: seq<Step>)
    requires Inv(w, s) && ValidRun(w, s, steps)
    ensures Inv(w, RunFrom(w, s, steps))
    decreases |steps|
  {
    if steps != [] {
      StepKeepsInv(w, s, steps[0]);
      RunKeepsInv(w, Apply(w, s, steps[0]), steps[1..]);
    }
  }

  // ---------------------------------------------------------------------------
  // Order-restoring refinement
  // ---------------------------------------------------------------------------

  ghost predicate Finished(s: State) {
    s.phase.Returned? && s.fan.Closed? && s.tasks.wg == 0 && s.audio == []
  }

  /**
   At every point of every run, cancelled or not: what was given to speech synthesis is a prefix of
   what the sequential pipeline produces, the audio is a prefix of its audio, and the transcripts on
   the lossy channel are a subsequence, in order, of the spoken texts.
   */
  lemma OutputIsPrefixOfSequential(w: World, steps: seq<Step>)
    requires ValidRun(w, Init(), steps)
    ensures var s := RunFrom(w, Init(), steps);
      && s.drainer.spoken <= Sequential(w, w.input, 0)
      && s.audioRead + s.audio <= SequentialAudio(w, w.input, 0)
      && IsSubsequence(s.transcriptsRead + s.drainer.transcripts, s.drainer.spoken)
  {
    InitInv(w);
    RunKeepsInv(w, Init(), steps);
    var s := RunFrom(w, Init(), steps);
    SequentialIsTexts(w);
    TextsGrow(w, s.drainer.next, |Phrases(w)|);
    assert s.audioRead + s.audio <= Audio(w, s.drainer.next);
  }

  /** When an uncancelled run has closed its outputs, it has said and played exactly what the sequential pipeline does. */
  lemma ClosedOutputIsSequential(w: World, steps: seq<Step>)
    requires ValidRun(w, Init(), steps)
    requires var s := RunFrom(w, Init(), steps); s.phase.Returned? && !s.cancelled
    ensures var s := RunFrom(w, Init(), steps);
      && s.drainer.spoken == Sequential(w, w.input, 0)
      && s.audioRead + s.audio == SequentialAudio(w, w.input, 0)
      && s.drainer.pending == map[] && s.drainer.next == s.tasks.seqNum
  {
    InitInv(w);
    RunKeepsInv(w, Init(), steps);
    SequentialIsTexts(w);
    assert w.input[..|w.input|] == w.input;
  }

  /** A set of naturals that is exactly an interval has the interval's size. */
  lemma {:induction false} IntervalSize(s: set<nat>, lo: nat, hi: nat)
    requires lo <= hi && forall k :: k in s <==> lo <= k < hi
    ensures |s| == hi - lo
  {
    if lo < hi {
      IntervalSize(s - {hi - 1}, lo, hi - 1);
    } else {
      assert s == {};
    }
  }

  lemma PartitionSize(t: Tasks, pending: set<nat>, next: nat)
    requires Partition(t, pending, next)
    ensures next + |pending| + |t.queue| + |t.sending| + |t.translating| == t.seqNum
  {
    var queued := Nums(t.queue);
    var held := pending + queued;
    var owned := t.sending.Keys + t.translating.Keys;
    IntervalSize(held + owned, next, t.seqNum);
  }

  /** Conservation: each assigned number is drained, buffered, queued, being sent or being translated, and nowhere twice. */
  lemma NumbersAreConserved(w: World, steps: seq<Step>)
    requires ValidRun(w, Init(), steps)
    ensures var s := RunFrom(w, Init(), steps); var t := s.tasks;
      && Partition(t, s.drainer.pending.Keys, s.drainer.next)
      && s.drainer.next + |s.drainer.pending| + |t.queue| + |t.sending| + |t.translating| == t.seqNum
      && (s.phase.Receiving? ==> s.drainer.next !in s.drainer.pending)
      && !t.panicked && (t.closed ==> |t.translating| + |t.sending| == 0)
  {
    InitInv(w);
    RunKeepsInv(w, Init(), steps);
    var s := RunFrom(w, Init(), steps);
    PartitionSize(s.tasks, s.drainer.pending.Keys, s.drainer.next);
  }

  // ---------------------------------------------------------------------------
  // Progress
  // ---------------------------------------------------------------------------

  /** Steps the pipeline and the audio reader make on their own; reading transcripts is optional. */
  predicate IsProgress(step: Step) {
    !step.Cancel? && !step.ConsumeTranscript?
  }

  ghost predicate CanMove(w: World, s: State) {
    exists step :: Enabled(w, s, step) && IsProgress(step)
  }

  /** A task that is not finished can always take its next step when the result channel has room. */
  lemma TasksCanMove(w: World, s: State)
    requires Counted(s.tasks) && s.tasks.wg > 0 && s.tasks.queue == []
    ensures CanMove(w, s)
  {
    var t := s.tasks;
    if k :| k in t.sending {
      assert Enabled(w, s, SendResult(k));
    } else if k :| k in t.translating {
      assert Enabled(w, s, FinishTranslate(k));
    } else {
      assert t.sending == map[] && t.translating == map[];
      var k :| k in t.finishing;
      assert Enabled(w, s, TaskDone(k));
    }
  }

  /** While the drainer waits, somebody else can move. */
  lemma FeedersCanMove(w: World, s: State)
    requires Inv(w, s) && s.phase.Receiving?
    ensures CanMove(w, s)
  {
    if s.tasks.queue != [] {
      assert Enabled(w, s, TakeResult);
    } else if s.fan.Closed? {
      assert Enabled(w, s, EndOfResults);
    } else if s.fan.Reading? {
      assert Enabled(w, s, ReadTranscript) || Enabled(w, s, InputClosed);
    } else if s.tasks.wg == 0 {
      assert Enabled(w, s, CloseResults);
    } else {
      TasksCanMove(w, s);
    }
  }

  /** A blocked drainer waits only for the audio reader. */
  lemma SenderCanMove(w: World, s: State)
    requires s.phase.Sending? || s.audio != []
    ensures CanMove(w, s)
  {
    if s.audio != [] {
      assert Enabled(w, s, ConsumeAudio);
    } else if s.phase.chunks == [] {
      assert Enabled(w, s, ChunksDone);
    } else {
      assert Enabled(w, s, SendChunk);
    }
  }

  /** No deadlock: an uncancelled state is finished or somebody can move, despite every bounded channel and the wait group. */
  lemma NoDeadlock(w: World, s: State)
    requires Inv(w, s) && !s.cancelled && !Finished(s)
    ensures CanMove(w, s)
  {
    match s.phase
    case Receiving => FeedersCanMove(w, s);
    case Checking => assert Enabled(w, s, CheckPending);
    case _ => SenderCanMove(w, s);
  }

  /** Chunks still to be synthesized for phrases numbered `k` and above. */
  function ChunkBudget(w: World, k: nat): nat
    decreases |Phrases(w)| - k
  {
    if k >= |Phrases(w)| then 0 else |Played(w, k, Outcome(w, k))| + ChunkBudget(w, k + 1)
  }

  function TaskWork(t: Tasks): nat {
    8 * |t.translating| + 7 * |t.sending| + |t.finishing| + 5 * |t.queue|
  }

  function DrainWork(w: World, d: Drainer, phase: DrainPhase): nat {
    3 * |d.pending| + |d.transcripts| + 2 * ChunkBudget(w, d.next)
    + match phase
      case Receiving => 1
      case Checking => 2
      case Sending(chunks) => 3 + 2 * |chunks|
      case Returned => 0
  }

  /** Work left; every step, cancelled or not, uses some of it up. */
  function Work(w: World, s: State): nat
    requires s.read <= |w.input|
  {
    9 * (|w.input| - s.read) + (match s.fan case Reading => 2 case Waiting => 1 case Closed => 0)
    + TaskWork(s.tasks) + DrainWork(w, s.drainer, s.phase) + |s.audio| + (if s.cancelled then 0 else 1)
  }

  lemma MapMinus<T>(m: map<nat, T>, k: nat)
    requires k in m
    ensures |m - {k}| == |m| - 1
  {
    assert (m - {k}).Keys == m.Keys - {k};
  }

  lemma CheckUsesWork(w: World, s: State)
    requires s.phase.Checking? && PendingValues(w, s.drainer.pending)
    ensures DrainWork(w, Check(w, s).drainer, Check(w, s).phase) < DrainWork(w, s.drainer, s.phase)
  {
    hide ChunkBudget, PendingValues;
    var d := s.drainer;
    if d.next in d.pending {
      MapMinus(d.pending, d.next);
      BudgetStep(w, d.pending, d.next);
    }
  }

  lemma BudgetStep(w: World, pending: map<nat, Option<string>>, k: nat)
    requires PendingValues(w, pending) && k in pending
    ensures ChunkBudget(w, k) == |Played(w, k, pending[k])| + ChunkBudget(w, k + 1)
  {
  }

  lemma TaskUsesWork(w: World, s: State, step: Step)
    requires Counted(s.tasks) && Enabled(w, s, step)
    requires step.FinishTranslate? || (step.SendResult? && !s.tasks.closed) || step.TaskDone?
    ensures TaskWork(Apply(w, s, step).tasks) < TaskWork(s.tasks)
  {
    var t := s.tasks;
    if step.FinishTranslate? {
      MapMinus(t.translating, step.num);
    } else if step.SendResult? {
      MapMinus(t.sending, step.num);
    }
  }

  lemma DeliveryUsesWork(w: World, s: State, step: Step)
    requires Enabled(w, s, step) && s.read <= |w.input|
    requires step.TakeResult? || step.EndOfResults? || step.SendChunk? || step.ChunksDone? || step.AbortOnCancel?
    ensures var s' := Apply(w, s, step);
      TaskWork(s'.tasks) + DrainWork(w, s'.drainer, s'.phase) + |s'.audio| < TaskWork(s.tasks) + DrainWork(w, s.drainer, s.phase) + |s.audio|
  {
    hide ChunkBudget;
    if step.TakeResult? {
      InsertBound(s.drainer, s.tasks.queue[0]);
    }
  }

  lemma InsertBound(d: Drainer, r: Result)
    ensures |Insert(d, r).pending| <= |d.pending| + 1
  {
    assert Insert(d, r).pending.Keys == d.pending.Keys + {r.num};
  }

  lemma ReaderUsesWork(w: World, s: State, step: Step)
    requires Counted(s.tasks) && Enabled(w, s, step) && s.read <= |w.input|
    requires step.ReadTranscript? && s.tasks.seqNum !in s.tasks.translating
    ensures Apply(w, s, step).read <= |w.input| && Work(w, Apply(w, s, step)) < Work(w, s)
  {
  }

  /** What the measure needs of the invariant. */
  lemma WorkFacts(w: World, s: State)
    requires Inv(w, s)
    ensures Counted(s.tasks) && PendingValues(w, s.drainer.pending) && s.read <= |w.input|
    ensures s.tasks.seqNum !in s.tasks.translating && (s.tasks.closed ==> s.tasks.sending == map[])
  {
    assert s.tasks.closed ==> |s.tasks.sending| == 0;
  }

  lemma StepUsesWork(w: World, s: State, step: Step)
    requires Inv(w, s) && Enabled(w, s, step)
    ensures Apply(w, s, step).read <= |w.input| && Work(w, Apply(w, s, step)) < Work(w, s)
  {
    hide Inv, Work, Apply, Counted, PendingValues;
    WorkFacts(w, s);
    match step
    case ReadTranscript => ReaderUsesWork(w, s, step);
    case CheckPending => CheckPendingUsesWork(w, s);
    case FinishTranslate(k) => TaskStepUsesWork(w, s, step);
    case SendResult(k) => TaskStepUsesWork(w, s, step);
    case TaskDone(k) => TaskStepUsesWork(w, s, step);
    case InputClosed => OtherUsesWork(w, s, step);
    case ObserveCancel => OtherUsesWork(w, s, step);
    case CloseResults => OtherUsesWork(w, s, step);
    case ConsumeAudio => OtherUsesWork(w, s, step);
    case ConsumeTranscript => OtherUsesWork(w, s, step);
    case Cancel => OtherUsesWork(w, s, step);
    case _ => DeliveryStepUsesWork(w, s, step);
  }

  lemma CheckPendingUsesWork(w: World, s: State)
    requires s.phase.Checking? && PendingValues(w, s.drainer.pending) && s.read <= |w.input|
    ensures Check(w, s).read == s.read && Work(w, Apply(w, s, CheckPending)) < Work(w, s)
    ensures Apply(w, s, CheckPending).read == s.read
  {
    hide DrainWork;
    CheckUsesWork(w, s);
  }

  lemma TaskStepUsesWork(w: World, s: State, step: Step)
    requires Counted(s.tasks) && Enabled(w, s, step) && s.read <= |w.input|
    requires step.FinishTranslate? || step.SendResult? || step.TaskDone?
    requires s.tasks.closed ==> s.tasks.sending == map[]
    ensures Apply(w, s, step).read == s.read && Work(w, Apply(w, s, step)) < Work(w, s)
  {
    hide DrainWork, TaskWork, Counted;
    TaskUsesWork(w, s, step);
  }

  lemma DeliveryStepUsesWork(w: World, s: State, step: Step)
    requires Enabled(w, s, step) && s.read <= |w.input|
    requires step.TakeResult? || step.EndOfResults? || step.SendChunk? || step.ChunksDone? || step.AbortOnCancel?
    ensures Apply(w, s, step).read == s.read && Work(w, Apply(w, s, step)) < Work(w, s)
  {
    hide DrainWork, TaskWork;
    DeliveryUsesWork(w, s, step);
  }

  /** Closing, cancelling and consuming each use up work of their own. */
  lemma OtherUsesWork(w: World, s: State, step: Step)
    requires Enabled(w, s, step) && s.read <= |w.input|
    requires step in {InputClosed, ObserveCancel, CloseResults, ConsumeAudio, ConsumeTranscript, Cancel}
    ensures Apply(w, s, step).read == s.read && Work(w, Apply(w, s, step)) < Work(w, s)
  {
    hide ChunkBudget;
  }

  lemma {:induction false} RunUsesWork(w: World, s: State, steps: seq<Step>)
    requires Inv(w, s) && ValidRun(w, s, steps)
    ensures |steps| <= Work(w, s)
    decreases |steps|
  {
    if steps != [] {
      StepKeepsInv(w, s, steps[0]);
      StepUsesWork(w, s, steps[0]);
      RunUsesWork(w, Apply(w, s, steps[0]), steps[1..]);
    }
  }

  /** Every run ends: its length is bounded by the transcripts and the audio they give rise to. */
  lemma RunsAreFinite(w: World, steps: seq<Step>)
    requires ValidRun(w, Init(), steps)
    ensures |steps| <= 9 * |w.input| + 2 * ChunkBudget(w, 0) + 4
  {
    InitInv(w);
    RunUsesWork(w, Init(), steps);
  }

  /** A run that nobody cancelled and that cannot be extended has delivered the whole sequential output. */
  lemma MaximalRunsDeliverEverything(w: World, steps: seq<Step>)
    requires ValidRun(w, Init(), steps)
    requires !RunFrom(w, Init(), steps).cancelled && !CanMove(w, RunFrom(w, Init(), steps))
    ensures var s := RunFrom(w, Init(), steps);
      Finished(s) && s.drainer.spoken == Sequential(w, w.input, 0) && s.audioRead == SequentialAudio(w, w.input, 0)
  {
    var s := RunFrom(w, Init(), steps);
    InitInv(w);
    RunKeepsInv(w, Init(), steps);
    if !Finished(s) {
      NoDeadlock(w, s);
    }
    ClosedOutputIsSequential(w, steps);
    assert s.audioRead + [] == s.audioRead;
  }

  // ---------------------------------------------------------------------------
  // The drainer's inner loop
  // ---------------------------------------------------------------------------

  /** The drainer after a result arrived: `TakePending` for as long as the expected number is there. */
  function DrainReady(d: Drainer): Drainer
    decreases |d.pending|
  {
    if d.next in d.pending then
      MapMinus(d.pending, d.next);
      DrainReady(TakePending(d))
    else d
  }

  /** The audio of the phrases one pass drains. */
  function PassAudio(w: World, d: Drainer): seq<Chunk>
    decreases |d.pending|
  {
    if d.next in d.pending then
      MapMinus(d.pending, d.next);
      Played(w, d.next, d.pending[d.next]) + PassAudio(w, TakePending(d))
    else []
  }

  /** One pass of which the audio reader takes only `accepts` chunks; it ends early in the phrase that has more. */
  function DrainUntil(w: World, d: Drainer, accepts: nat): (Drainer, bool)
    decreases |d.pending|
  {
    if d.next in d.pending then
      MapMinus(d.pending, d.next);
      var n := |Played(w, d.next, d.pending[d.next])|;
      if n > accepts then (TakePending(d), false) else DrainUntil(w, TakePending(d), accepts - n)
    else (d, true)
  }

  function FirstOf(chunks: seq<Chunk>, n: nat): seq<Chunk> {
    if n < |chunks| then chunks[..n] else chunks
  }

  /** A pass ends early exactly when its audio is more than what the reader takes; otherwise it is the whole pass. */
  lemma {:induction false} DrainsAllExactlyWhen(w: World, d: Drainer, accepts: nat)
    ensures DrainUntil(w, d, accepts).1 <==> |PassAudio(w, d)| <= accepts
    ensures DrainUntil(w, d, accepts).1 ==> DrainUntil(w, d, accepts).0 == DrainReady(d)
    decreases |d.pending|
  {
    if d.next in d.pending {
      MapMinus(d.pending, d.next);
      var n := |Played(w, d.next, d.pending[d.next])|;
      if n <= accepts {
        DrainsAllExactlyWhen(w, TakePending(d), accepts - n);
      }
    }
  }

  lemma FirstOfIsPrefix(chunks: seq<Chunk>, n: nat)
    ensures FirstOf(chunks, n) == if n < |chunks| then chunks[..n] else chunks
  {
  }

  /** What taking the next result contributes to a pass. */
  lemma PassStep(w: World, d: Drainer, accepts: nat)
    requires d.next in d.pending
    ensures var pcm, d1 := Played(w, d.next, d.pending[d.next]), TakePending(d);
      if |pcm| > accepts then DrainUntil(w, d, accepts) == (d1, false) && FirstOf(PassAudio(w, d), accepts) == FirstOf(pcm, accepts)
      else
        && DrainUntil(w, d, accepts) == DrainUntil(w, d1, accepts - |pcm|)
        && FirstOf(PassAudio(w, d), accepts) == pcm + FirstOf(PassAudio(w, d1), accepts - |pcm|)
  {
    MapMinus(d.pending, d.next);
  }

  lemma NothingToPass(w: World, d: Drainer, accepts: nat)
    requires d.next !in d.pending
    ensures DrainUntil(w, d, accepts) == (d, true) && FirstOf(PassAudio(w, d), accepts) == []
  {
  }

  /** The reorder buffer and what the drainer hands out, as the goroutine keeps them. */
  class OrderedDrainer {
    const world: World
    var pending: map<nat, Option<string>>
    var nextExpected: nat
    var spoken: seq<string>
    var transcripts: seq<string>
    var audio: seq<Chunk>

    function View(): Drainer
      reads this
    {
      Drainer(pending, nextExpected, spoken, transcripts)
    }

    constructor (w: World)
      ensures world == w && View() == Drainer(map[], 0, [], []) && audio == []
    {
      world := w;
      pending, nextExpected, spoken, transcripts, audio := map[], 0, [], [], [];
    }

    /**
     Drains what a new result makes ready, synthesizing each text. The audio reader takes `accepts` more
     chunks before the context ends; a send that it does not take ends the drainer.
     */
    method Receive(result: Result, accepts: nat) returns (ok: bool)
      modifies this
      ensures (View(), ok) == DrainUntil(world, Insert(old(View()), result), accepts)
      ensures var pass := PassAudio(world, Insert(old(View()), result));
        audio == old(audio) + if accepts < |pass| then pass[..accepts] else pass
      ensures ok ==>
        var buffered, lo, hi := old(pending)[result.num := result.outcome], old(nextExpected), nextExpected;
        && lo <= hi && hi !in buffered && (forall k :: lo <= k < hi ==> k in buffered)
        && (forall k :: k in pending <==> k in buffered && !(lo <= k < hi))
        && (forall k :: k in pending ==> pending[k] == buffered[k])
        && var texts, room := Gathered(buffered, lo, hi), TRANSCRIPT_CAPACITY - |old(transcripts)|;
           && spoken == old(spoken) + texts
           && (room >= 0 ==> transcripts == old(transcripts) + if |texts| <= room then texts else texts[..room])
    {
      hide DrainUntil, PassAudio, DrainReady, FirstOf;
      pending := pending[result.num := result.outcome];
      ghost var start := View();
      var left: nat := accepts;
      FirstOfIsPrefix(PassAudio(world, start), accepts);
      while nextExpected in pending
        invariant DrainUntil(world, View(), left) == DrainUntil(world, start, accepts)
        invariant audio + FirstOf(PassAudio(world, View()), left) == old(audio) + FirstOf(PassAudio(world, start), accepts)
        decreases |pending|
      {
        PassStep(world, View(), left);
        var k, r := TakeNext();
        if r.None? || world.synthesize(k, r.value).None? {
          continue;
        }
        var pcm := world.synthesize(k, r.value).value;
        var sent := SendChunks(pcm, left);
        if !sent {
          return false;
        }
        left := left - |pcm|;
      }
      NothingToPass(world, View(), left);
      DrainsAllExactlyWhen(world, start, accepts);
      OnePassDrainsToGap(start);
      PassSendsTranscripts(start);
      ok := true;
    }

    /** Takes the expected result out of the buffer and hands its text to the lossy channel. */
    method TakeNext() returns (k: nat, r: Option<string>)
      requires nextExpected in pending
      modifies this`pending, this`nextExpected, this`spoken, this`transcripts
      ensures View() == TakePending(old(View())) && |pending| < |old(pending)|
      ensures k == old(nextExpected) && r == old(pending)[k] && nextExpected == k + 1 && pending == old(pending) - {k}
      ensures spoken == old(spoken) + if r.Some? then [r.value] else []
      ensures transcripts == old(transcripts) + if r.Some? && |old(transcripts)| < TRANSCRIPT_CAPACITY then [r.value] else []
    {
      k, r := nextExpected, pending[nextExpected];
      MapMinus(pending, nextExpected);
      pending := pending - {nextExpected};
      nextExpected := nextExpected + 1;
      if r.Some? {
        spoken := spoken + [r.value];
        if |transcripts| < TRANSCRIPT_CAPACITY {
          transcripts := transcripts + [r.value];
        }
      }
    }

    /** Sends the chunks of one phrase, as many as the reader takes. */
    method SendChunks(pcm: seq<Chunk>, accepts: nat) returns (ok: bool)
      modifies this`audio
      ensures ok <==> |pcm| <= accepts
      ensures audio == old(audio) + FirstOf(pcm, accepts) && (ok ==> FirstOf(pcm, accepts) == pcm)
    {
      for i := 0 to |pcm|
        invariant i <= accepts && audio == old(audio) + pcm[..i]
      {
        if i == accepts {
          return false;
        }
        audio := audio + [pcm[i]];
      }
      ok := true;
    }
  }

  /** The texts buffered under the numbers `lo..hi-1`, in number order. */
  function Gathered(pending: map<nat, Option<string>>, lo: nat, hi: nat): seq<string>
    requires forall k :: lo <= k < hi ==> k in pending
    decreases hi - lo
  {
    if lo >= hi then [] else Spoken(pending[lo]) + Gathered(pending, lo + 1, hi)
  }

  lemma {:induction false} GatheredWithout(pending: map<nat, Option<string>>, j: nat, lo: nat, hi: nat)
    requires j < lo && forall k :: lo <= k < hi ==> k in pending
    ensures Gathered(pending - {j}, lo, hi) == Gathered(pending, lo, hi)
    decreases hi - lo
  {
    if lo < hi {
      GatheredWithout(pending, j, lo + 1, hi);
    }
  }

  /** A pass takes the buffered results up to the first gap, and touches nothing behind it. */
  lemma {:induction false} PassTakesInterval(d: Drainer)
    ensures var e := DrainReady(d);
      && d.next <= e.next && e.next !in e.pending
      && (forall k :: d.next <= k < e.next ==> k in d.pending)
      && (forall k :: k in e.pending <==> k in d.pending && !(d.next <= k < e.next))
      && (forall k :: k in e.pending ==> e.pending[k] == d.pending[k])
    decreases |d.pending|
  {
    if d.next in d.pending {
      MapMinus(d.pending, d.next);
      PassTakesInterval(TakePending(d));
      var e := DrainReady(d);
      forall k | d.next <= k < e.next ensures k in d.pending {
        assert k == d.next || k in TakePending(d).pending;
      }
    }
  }

  /** One pass of the loop speaks, in number order, everything up to the first gap, and touches nothing behind it. */
  lemma {:induction false} OnePassDrainsToGap(d: Drainer)
    ensures var e := DrainReady(d);
      && d.next <= e.next && e.next !in e.pending
      && (forall k :: d.next <= k < e.next ==> k in d.pending)
      && e.spoken == d.spoken + Gathered(d.pending, d.next, e.next)
      && (forall k :: k in e.pending <==> k in d.pending && !(d.next <= k < e.next))
      && (forall k :: k in e.pending ==> e.pending[k] == d.pending[k])
    decreases |d.pending|
  {
    PassTakesInterval(d);
    PassSpeaks(d);
  }

  lemma {:induction false} PassSpeaks(d: Drainer)
    requires forall k :: d.next <= k < DrainReady(d).next ==> k in d.pending
    ensures DrainReady(d).spoken == d.spoken + Gathered(d.pending, d.next, DrainReady(d).next)
    decreases |d.pending|
  {
    hide DrainReady, Spoken;
    ReadyStep(d);
    if d.next in d.pending {
      MapMinus(d.pending, d.next);
      var d1 := TakePending(d);
      NextGrows(d1);
      PassSpeaks(d1);
      var hi := DrainReady(d1).next;
      GatheredWithout(d.pending, d.next, d1.next, hi);
      Regroup(d.spoken, Spoken(d.pending[d.next]), Gathered(d.pending, d1.next, hi));
    }
  }

  lemma ReadyStep(d: Drainer)
    ensures DrainReady(d) == if d.next in d.pending then DrainReady(TakePending(d)) else d
  {
  }

  /** Of the texts of a pass, as many reach the lossy channel as it has room for, the first ones. */
  lemma {:induction false} PassSendsTranscripts(d: Drainer)
    ensures var e := DrainReady(d); var room := TRANSCRIPT_CAPACITY - |d.transcripts|;
      && (forall k :: d.next <= k < e.next ==> k in d.pending)
      && var texts := Gathered(d.pending, d.next, e.next);
         room >= 0 ==> e.transcripts == d.transcripts + if |texts| <= room then texts else texts[..room]
    decreases |d.pending|
  {
    hide DrainReady;
    PassTakesInterval(d);
    ReadyStep(d);
    if d.next in d.pending {
      MapMinus(d.pending, d.next);
      var d1 := TakePending(d);
      NextGrows(d1);
      PassSendsTranscripts(d1);
      GatheredWithout(d.pending, d.next, d1.next, DrainReady(d1).next);
    }
  }

  lemma {:induction false} NextGrows(d: Drainer)
    ensures d.next <= DrainReady(d).next
    decreases |d.pending|
  {
    if d.next in d.pending {
      MapMinus(d.pending, d.next);
      NextGrows(TakePending(d));
    }
  }

  // ---------------------------------------------------------------------------
  // The loop is what the step system does
  // ---------------------------------------------------------------------------

  lemma Prepend(w: World, s: State, step: Step, rest: seq<Step>)
    requires Enabled(w, s, step) && ValidRun(w, Apply(w, s, step), rest)
    ensures ValidRun(w, s, [step] + rest) && RunFrom(w, s, [step] + rest) == RunFrom(w, Apply(w, s, step), rest)
  {
    assert ([step] + rest)[1..] == rest;
  }

  lemma {:induction false} Join(w: World, s: State, a: seq<Step>, b: seq<Step>)
    requires ValidRun(w, s, a) && ValidRun(w, RunFrom(w, s, a), b)
    ensures ValidRun(w, s, a + b) && RunFrom(w, s, a + b) == RunFrom(w, RunFrom(w, s, a), b)
    decreases |a|
  {
    if a == [] {
      assert a + b == b;
    } else {
      Join(w, Apply(w, s, a[0]), a[1..], b);
      assert a + b == [a[0]] + (a[1..] + b);
      Prepend(w, s, a[0], a[1..] + b);
    }
  }

  /** The same state but for the drainer, which plays more audio: on its way or already read. */
  ghost predicate Plays(s: State, s': State, d: Drainer, phase: DrainPhase, chunks: seq<Chunk>) {
    && s' == s.(drainer := d, phase := phase, audio := s'.audio, audioRead := s'.audioRead)
    && s'.audioRead + s'.audio == s.audioRead + s.audio + chunks
    && |s'.audio| <= AUDIO_CAPACITY
  }

  /** The audio of one phrase gets out as long as the reader reads. */
  lemma {:induction false} ChunksGetOut(w: World, s: State) returns (steps: seq<Step>)
    requires s.phase.Sending? && |s.audio| <= AUDIO_CAPACITY
    ensures ValidRun(w, s, steps) && Plays(s, RunFrom(w, s, steps), s.drainer, Checking, s.phase.chunks)
    decreases if s.phase.Sending? then |s.phase.chunks| else 0, |s.audio|
  {
    var cs := s.phase.chunks;
    var step := if cs == [] then ChunksDone else if |s.audio| < AUDIO_CAPACITY then SendChunk else ConsumeAudio;
    var s1 := Apply(w, s, step);
    if cs == [] {
      steps := [];
    } else {
      steps := ChunksGetOut(w, s1);
    }
    Prepend(w, s, step, steps);
    steps := [step] + steps;
  }

  /** One phrase: the check takes it, and its audio gets out. */
  lemma PhraseGetsOut(w: World, s: State) returns (steps: seq<Step>)
    requires s.phase.Checking? && |s.audio| <= AUDIO_CAPACITY && s.drainer.next in s.drainer.pending
    ensures ValidRun(w, s, steps)
    ensures var d := s.drainer; Plays(s, RunFrom(w, s, steps), TakePending(d), Checking, Played(w, d.next, d.pending[d.next]))
  {
    var s1 := Check(w, s);
    steps := [];
    if s1.phase.Sending? {
      steps := ChunksGetOut(w, s1);
    } else {
      assert s1.audioRead + s1.audio + [] == s1.audioRead + s1.audio;
    }
    Prepend(w, s, CheckPending, steps);
    steps := [CheckPending] + steps;
  }

  lemma PlaysOn(s: State, s1: State, s2: State, p1: DrainPhase, p2: DrainPhase, d1: Drainer, d2: Drainer, a: seq<Chunk>, b: seq<Chunk>)
    requires Plays(s, s1, d1, p1, a) && Plays(s1, s2, d2, p2, b)
    ensures Plays(s, s2, d2, p2, a + b)
  {
    assert s.audioRead + s.audio + a + b == s.audioRead + s.audio + (a + b);
  }

  /** From any check, with a reader that reads, the step system gets where one pass of the loop gets, and plays its audio. */
  lemma {:induction false} ChecksAmountToOnePass(w: World, s: State) returns (steps: seq<Step>)
    requires s.phase.Checking? && |s.audio| <= AUDIO_CAPACITY
    ensures ValidRun(w, s, steps)
    ensures Plays(s, RunFrom(w, s, steps), DrainReady(s.drainer), Receiving, PassAudio(w, s.drainer))
    decreases |s.drainer.pending|
  {
    var d := s.drainer;
    if d.next !in d.pending {
      Prepend(w, s, CheckPending, []);
      assert s.audioRead + s.audio + [] == s.audioRead + s.audio;
      return [CheckPending];
    }
    MapMinus(d.pending, d.next);
    steps := PhraseGetsOut(w, s);
    var s1 := RunFrom(w, s, steps);
    var rest := ChecksAmountToOnePass(w, s1);
    Join(w, s, steps, rest);
    PlaysOn(s, s1, RunFrom(w, s1, rest), Checking, Receiving, TakePending(d), DrainReady(d), Played(w, d.next, d.pending[d.next]), PassAudio(w, TakePending(d)));
    steps := steps + rest;
  }

  /** One step towards sending: the next chunk, or the reader makes room. */
  lemma SendOrMakeRoom(w: World, s: State) returns (step: Step)
    requires s.phase.Sending? && s.phase.chunks != [] && |s.audio| <= AUDIO_CAPACITY
    ensures Enabled(w, s, step)
    ensures step == SendChunk ==> Plays(s, Apply(w, s, step), s.drainer, Sending(s.phase.chunks[1..]), [s.phase.chunks[0]])
    ensures step != SendChunk ==> Plays(s, Apply(w, s, step), s.drainer, s.phase, []) && |Apply(w, s, step).audio| < |s.audio|
  {
    step := if |s.audio| < AUDIO_CAPACITY then SendChunk else ConsumeAudio;
  }

  /** The first chunks of a phrase get out; the others still wait. */
  lemma {:induction false} SomeChunksGetOut(w: World, s: State, out: seq<Chunk>, rest: seq<Chunk>) returns (steps: seq<Step>)
    requires s.phase == Sending(out + rest) && |s.audio| <= AUDIO_CAPACITY
    ensures ValidRun(w, s, steps) && Plays(s, RunFrom(w, s, steps), s.drainer, Sending(rest), out)
    decreases |out|, |s.audio|
  {
    if out == [] {
      assert out + rest == rest && s.audioRead + s.audio + [] == s.audioRead + s.audio;
      return [];
    }
    hide Plays, Enabled, Apply, RunFrom, ValidRun;
    var step := SendOrMakeRoom(w, s);
    var s1 := Apply(w, s, step);
    assert (out + rest)[1..] == out[1..] + rest;
    var sent := if step == SendChunk then [out[0]] else [];
    var left := if step == SendChunk then out[1..] else out;
    assert sent + left == out;
    PlaysPhase(s, s1, s.drainer, Sending(left + rest), sent);
    steps := SomeChunksGetOut(w, s1, left, rest);
    Prepend(w, s, step, steps);
    PlaysOn(s, s1, RunFrom(w, s1, steps), Sending(left + rest), Sending(rest), s.drainer, s.drainer, sent, left);
    steps := [step] + steps;
  }

  lemma PlaysPhase(s: State, s1: State, d: Drainer, phase: DrainPhase, chunks: seq<Chunk>)
    requires Plays(s, s1, d, phase, chunks)
    ensures s1.phase == phase && s1.drainer == d && |s1.audio| <= AUDIO_CAPACITY
  {
  }

  /** After cancellation, a pass that ends early is what the step system can do: it stops inside the phrase that has more. */
  lemma {:induction false} EarlyEndIsAbort(w: World, s: State, accepts: nat) returns (steps: seq<Step>)
    requires s.phase.Checking? && |s.audio| <= AUDIO_CAPACITY && s.cancelled && !DrainUntil(w, s.drainer, accepts).1
    ensures ValidRun(w, s, steps)
    ensures Plays(s, RunFrom(w, s, steps), DrainUntil(w, s.drainer, accepts).0, Returned, FirstOf(PassAudio(w, s.drainer), accepts))
    decreases |s.drainer.pending|
  {
    var d := s.drainer;
    hide DrainUntil, PassAudio, FirstOf;
    if d.next !in d.pending {
      NothingToPass(w, d, accepts);
      return;
    }
    PassStep(w, d, accepts);
    MapMinus(d.pending, d.next);
    var pcm := Played(w, d.next, d.pending[d.next]);
    if |pcm| <= accepts {
      steps := PhraseGetsOut(w, s);
      var s1 := RunFrom(w, s, steps);
      var rest := EarlyEndIsAbort(w, s1, accepts - |pcm|);
      Join(w, s, steps, rest);
      PlaysOn(s, s1, RunFrom(w, s1, rest), Checking, Returned, TakePending(d), DrainUntil(w, d, accepts).0, pcm, FirstOf(PassAudio(w, TakePending(d)), accepts - |pcm|));
      steps := steps + rest;
    } else {
      steps := PhraseCutShort(w, s, accepts);
      FirstOfIsPrefix(pcm, accepts);
    }
  }

  /** The check takes the phrase, `n` of its chunks get out, and the drainer gives up. */
  lemma PhraseCutShort(w: World, s: State, n: nat) returns (steps: seq<Step>)
    requires s.phase.Checking? && |s.audio| <= AUDIO_CAPACITY && s.cancelled && s.drainer.next in s.drainer.pending
    requires var d := s.drainer; n < |Played(w, d.next, d.pending[d.next])|
    ensures ValidRun(w, s, steps)
    ensures var d := s.drainer; Plays(s, RunFrom(w, s, steps), TakePending(d), Returned, Played(w, d.next, d.pending[d.next])[..n])
  {
    var s1, pcm := Check(w, s), Played(w, s.drainer.next, s.drainer.pending[s.drainer.next]);
    assert pcm == pcm[..n] + pcm[n..];
    steps := SomeChunksGetOut(w, s1, pcm[..n], pcm[n..]);
    var s2 := RunFrom(w, s1, steps);
    Prepend(w, s2, AbortOnCancel, []);
    Join(w, s1, steps, [AbortOnCancel]);
    Prepend(w, s, CheckPending, steps + [AbortOnCancel]);
    steps := [CheckPending] + (steps + [AbortOnCancel]);
  }
}
