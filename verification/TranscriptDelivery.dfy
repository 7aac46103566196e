/**
 What reaches the people in the room: which transcripts are translated at all, what is spoken for
 each phrase, and which of the spoken texts the lossy transcript channel delivers.
 */
module TranscriptDelivery {
  import opened Common
  import opened TranslatePipeline

  // ---------------------------------------------------------------------------
  // Which transcripts are translated
  // ---------------------------------------------------------------------------

  predicate AllSpace(s: string) {
    forall i :: 0 <= i < |s| ==> IsSpace(s[i])
  }

  lemma {:induction false} TrimLeftSplits(s: string) returns (before: string)
    ensures AllSpace(before) && s == before + TrimLeft(s)
    ensures TrimLeft(s) != "" ==> !IsSpace(TrimLeft(s)[0])
  {
    before := "";
    if s != "" && IsSpace(s[0]) {
      before := TrimLeftSplits(s[1..]);
      assert s == [s[0]] + (before + TrimLeft(s[1..]));
      before := [s[0]] + before;
    }
  }

  lemma {:induction false} TrimRightSplits(s: string) returns (after: string)
    ensures AllSpace(after) && s == TrimRight(s) + after
    ensures TrimRight(s) != "" ==> !IsSpace(TrimRight(s)[|TrimRight(s)| - 1]) && TrimRight(s)[0] == s[0]
  {
    after := "";
    if s != "" && IsSpace(s[|s| - 1]) {
      var n := |s| - 1;
      after := TrimRightSplits(s[..n]);
      assert s == TrimRight(s[..n]) + (after + [s[n]]);
      after := after + [s[n]];
    }
  }

  /** No white space at either end. */
  predicate Tight(s: string) {
    s != "" ==> !IsSpace(s[0]) && !IsSpace(s[|s| - 1])
  }

  /** Trimming cuts off white space at both ends and nothing else. */
  lemma TrimSplits(s: string) returns (before: string, after: string)
    ensures AllSpace(before) && AllSpace(after) && s == before + TrimRight(TrimLeft(s)) + after
    ensures Tight(TrimRight(TrimLeft(s)))
  {
    before := TrimLeftSplits(s);
    after := TrimRightSplits(TrimLeft(s));
    assert s == before + (TrimRight(TrimLeft(s)) + after);
  }

  /** There is only one way to cut white space off both ends. */
  lemma {:induction false} TrimIsUnique(before: string, core: string, after: string)
    requires AllSpace(before) && AllSpace(after) && Tight(core)
    ensures TrimRight(TrimLeft(before + core + after)) == core
    decreases |before|, |after|
  {
    var s := before + core + after;
    if before != "" {
      assert s[0] == before[0] && s[1..] == before[1..] + core + after;
      TrimIsUnique(before[1..], core, after);
    } else if core != "" {
      assert s[0] == core[0];
      TrimRightCuts(core, after);
      assert s == core + after;
    } else {
      OnlySpaceTrims(after);
      assert s == after;
    }
  }

  lemma {:induction false} TrimRightCuts(core: string, after: string)
    requires core != "" && Tight(core) && AllSpace(after)
    ensures TrimRight(core + after) == core
    decreases |after|
  {
    if after == "" {
      assert core + after == core;
    } else {
      var n := |after| - 1;
      assert (core + after)[..|core + after| - 1] == core + after[..n];
      TrimRightCuts(core, after[..n]);
    }
  }

  lemma {:induction false} OnlySpaceTrims(s: string)
    requires AllSpace(s)
    ensures TrimLeft(s) == ""
  {
    if s != "" {
      OnlySpaceTrims(s[1..]);
    }
  }

  /** A transcript counts as the prompt exactly when the two have one core, with any white space around it. */
  lemma PromptEchoExactlyWhen(w: World, text: string)
    ensures IsPromptEcho(w, text) <==>
      w.prompt != "" &&
      exists core, a, b, c, d :: Tight(core) && AllSpace(a) && AllSpace(b) && AllSpace(c) && AllSpace(d) && text == a + core + b && w.prompt == c + core + d
  {
    if IsPromptEcho(w, text) {
      var a, b := TrimSplits(text);
      var c, d := TrimSplits(w.prompt);
      var core := TrimRight(TrimLeft(text));
      assert text == a + core + b && w.prompt == c + core + d;
    }
    if core, a, b, c, d :| Tight(core) && AllSpace(a) && AllSpace(b) && AllSpace(c) && AllSpace(d) && text == a + core + b && w.prompt == c + core + d {
      TrimIsUnique(a, core, b);
      TrimIsUnique(c, core, d);
    }
  }

  lemma LowerIgnoresCase(a: char, b: char)
    ensures Lower(a) == Lower(b) <==> SameLetter(a, b)
  {
    LowerLetters(a);
    LowerLetters(b);
  }

  /** A transcript is dropped exactly when it is empty, echoes the prompt, or is long enough and detected as another language. */
  lemma DroppedExactlyWhen(w: World, text: string)
    ensures !Accepts(w, text) <==>
      || text == "" || IsPromptEcho(w, text)
      || (|text| >= 8 && w.detect(text).Some? &&
          var found := w.detect(text).value;
          |found| != |w.sourceLang| || exists i :: 0 <= i < |found| && !SameLetter(found[i], w.sourceLang[i]))
  {
    if w.detect(text).Some? {
      var found := w.detect(text).value;
      forall i | 0 <= i < |found| && i < |w.sourceLang| ensures Lower(found[i]) == Lower(w.sourceLang[i]) <==> SameLetter(found[i], w.sourceLang[i]) {
        LowerIgnoresCase(found[i], w.sourceLang[i]);
      }
    }
  }

  // ---------------------------------------------------------------------------
  // What each phrase contributes
  // ---------------------------------------------------------------------------

  /**
   The sequential pipeline, phrase by phrase: a phrase whose translation fails contributes nothing; otherwise its
   translation is spoken, and its synthesized audio, if there is any, is played.
   */
  lemma PhraseContributes(w: World, k: nat)
    requires k < |Phrases(w)|
    ensures match w.translate(k, Phrases(w)[k])
      case None => Texts(w, k + 1) == Texts(w, k) && Audio(w, k + 1) == Audio(w, k)
      case Some(text) =>
        && Texts(w, k + 1) == Texts(w, k) + [text]
        && (w.synthesize(k, text).None? ==> Audio(w, k + 1) == Audio(w, k))
        && (w.synthesize(k, text).Some? ==> Audio(w, k + 1) == Audio(w, k) + w.synthesize(k, text).value)
    ensures Texts(w, 0) == [] && Audio(w, 0) == []
  {
  }

  // ---------------------------------------------------------------------------
  // Which texts reach the transcript channel
  // ---------------------------------------------------------------------------

  /** The text a step drains: a check that finds the expected result, translated. */
  function TextDrained(s: State, step: Step): seq<string> {
    if step.CheckPending? && s.drainer.next in s.drainer.pending && s.drainer.pending[s.drainer.next].Some?
    then [s.drainer.pending[s.drainer.next].value] else []
  }

  /** All texts drained in a run. */
  ghost function Drained(w: World, s: State, steps: seq<Step>): seq<string>
    requires ValidRun(w, s, steps)
    decreases |steps|
  {
    if steps == [] then [] else TextDrained(s, steps[0]) + Drained(w, Apply(w, s, steps[0]), steps[1..])
  }

  /** The texts drained in a run except those at which four others waited to be read. */
  ghost function DrainedInTime(w: World, s: State, steps: seq<Step>): seq<string>
    requires ValidRun(w, s, steps)
    decreases |steps|
  {
    if steps == [] then []
    else
      (if |s.drainer.transcripts| == 4 then [] else TextDrained(s, steps[0])) + DrainedInTime(w, Apply(w, s, steps[0]), steps[1..])
  }

  /** Every text is drained while fewer than four wait. */
  ghost predicate ReaderKeepsUp(w: World, s: State, steps: seq<Step>)
    requires ValidRun(w, s, steps)
    decreases |steps|
  {
    steps != [] ==>
      && (steps[0].CheckPending? ==> |s.drainer.transcripts| < 4)
      && ReaderKeepsUp(w, Apply(w, s, steps[0]), steps[1..])
  }

  lemma StepTranscripts(w: World, s: State, step: Step)
    requires Enabled(w, s, step) && |s.drainer.transcripts| <= 4
    ensures var s' := Apply(w, s, step);
      && s'.drainer.spoken == s.drainer.spoken + TextDrained(s, step)
      && s'.transcriptsRead + s'.drainer.transcripts ==
         s.transcriptsRead + s.drainer.transcripts + (if |s.drainer.transcripts| == 4 then [] else TextDrained(s, step))
      && |s'.drainer.transcripts| <= 4
  {
  }

  lemma {:induction false} RunTranscripts(w: World, s: State, steps: seq<Step>)
    requires ValidRun(w, s, steps) && |s.drainer.transcripts| <= 4
    ensures var s' := RunFrom(w, s, steps);
      && s'.drainer.spoken == s.drainer.spoken + Drained(w, s, steps)
      && s'.transcriptsRead + s'.drainer.transcripts == s.transcriptsRead + s.drainer.transcripts + DrainedInTime(w, s, steps)
    decreases |steps|
  {
    if steps != [] {
      var step, s1 := steps[0], Apply(w, s, steps[0]);
      StepTranscripts(w, s, step);
      RunTranscripts(w, s1, steps[1..]);
      Regroup(s.drainer.spoken, TextDrained(s, step), Drained(w, s1, steps[1..]));
      Regroup(s.transcriptsRead + s.drainer.transcripts, if |s.drainer.transcripts| == 4 then [] else TextDrained(s, step), DrainedInTime(w, s1, steps[1..]));
    }
  }

  /** Over every run: a drained text is spoken, and it is missing from the transcripts exactly when four waited as it was drained. */
  lemma TranscriptsMissExactlyWhenFull(w: World, steps: seq<Step>)
    requires ValidRun(w, Init(), steps)
    ensures var s := RunFrom(w, Init(), steps);
      s.drainer.spoken == Drained(w, Init(), steps) && s.transcriptsRead + s.drainer.transcripts == DrainedInTime(w, Init(), steps)
  {
    RunTranscripts(w, Init(), steps);
  }

  lemma {:induction false} NothingMissed(w: World, s: State, steps: seq<Step>)
    requires ValidRun(w, s, steps) && ReaderKeepsUp(w, s, steps)
    ensures DrainedInTime(w, s, steps) == Drained(w, s, steps)
    decreases |steps|
  {
    if steps != [] {
      NothingMissed(w, Apply(w, s, steps[0]), steps[1..]);
    }
  }

  /** With a reader that keeps up, every spoken text arrives as a transcript, in order; a run that closes uncancelled delivers them all. */
  lemma TranscriptsArrive(w: World, steps: seq<Step>)
    requires ValidRun(w, Init(), steps) && ReaderKeepsUp(w, Init(), steps)
    ensures var s := RunFrom(w, Init(), steps);
      && s.transcriptsRead + s.drainer.transcripts == s.drainer.spoken
      && (s.phase.Returned? && !s.cancelled ==> s.transcriptsRead + s.drainer.transcripts == Sequential(w, w.input, 0))
  {
    RunTranscripts(w, Init(), steps);
    NothingMissed(w, Init(), steps);
    var s := RunFrom(w, Init(), steps);
    if s.phase.Returned? && !s.cancelled {
      ClosedOutputIsSequential(w, steps);
    }
  }
}
