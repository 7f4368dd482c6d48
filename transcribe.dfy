/** The command-line real-time transcriber (smartcretary/realtime_transcribe.py): audio
    blocks queued by the input stream are cut into phrases at pauses, each phrase is
    recognised and its stripped text kept, and the kept texts are sent for a summary.
    Loudness is decided before a block reaches the model (`silent`), and recognition is
    the parameter `recognize`. */
module Transcribe {
  import opened Common

  const WhisperSampleRate: nat := 16000
  const BlockSize: nat := 24678
  const SilenceDurationS: nat := 2

  /** `num_silent_blocks_for_pause`, the pause length in blocks; Python's `int` of the
      quotient of two positive numbers is its floor. */
  const PauseBlocks: nat := (SilenceDurationS * WhisperSampleRate) / BlockSize

  /** With these constants a pause is a single block, although a block is shorter than
      the two seconds the pause is meant to last. */
  lemma PauseIsOneBlock()
    ensures PauseBlocks == 1
    ensures BlockSize < SilenceDurationS * WhisperSampleRate < 2 * BlockSize
  {
  }

  /** An audio block, opaque to the model. */
  type Block = nat

  /** An entry of `audio_queue`: a block, already classified as silent or not, or the
      `None` sentinel that `stop` puts there. */
  datatype Item = Audio(block: Block, silent: bool) | Sentinel

  /** The loop's local state: `phrase_buffer`, `silence_counter`, and the buffers handed
      to `_transcribe_phrase` so far. */
  datatype Seg = Seg(buffer: seq<Block>, counter: nat, phrases: seq<seq<Block>>)

  const Idle: Seg := Seg([], 0, [])

  /** One block of `_process_audio`, with a pause of `pause` silent blocks. */
  function Step(pause: nat, s: Seg, b: Block, silent: bool): Seg {
    if silent then
      if |s.buffer| > 0 then
        if s.counter + 1 >= pause then Seg([], 0, s.phrases + [s.buffer])
        else Seg(s.buffer, s.counter + 1, s.phrases)
      else s
    else Seg(s.buffer + [b], 0, s.phrases)
  }

  /** With the configured pause: a spoken block joins the buffer and resets the counter,
      a silent block with nothing buffered changes nothing, and the first silent block
      after speech already ends the phrase. */
  lemma StepSpec(s: Seg, b: Block, silent: bool)
    ensures !silent ==> Step(PauseBlocks, s, b, silent) == Seg(s.buffer + [b], 0, s.phrases)
    ensures silent && s.buffer == [] ==> Step(PauseBlocks, s, b, silent) == s
    ensures silent && s.buffer != [] ==> Step(PauseBlocks, s, b, silent) == Seg([], 0, s.phrases + [s.buffer])
  {
    PauseIsOneBlock();
  }

  /** The loop over the queue up to its first sentinel. */
  function Scan(pause: nat, s: Seg, items: seq<Item>): Seg
    decreases |items|
  {
    if items == [] || items[0].Sentinel? then s
    else Scan(pause, Step(pause, s, items[0].block, items[0].silent), items[1..])
  }

  predicate HasSentinel(items: seq<Item>) {
    exists i :: 0 <= i < |items| && items[i].Sentinel?
  }

  /** What is left in the queue once the sentinel has been taken. */
  function AfterSentinel(items: seq<Item>): seq<Item>
    decreases |items|
  {
    if items == [] then []
    else if items[0].Sentinel? then items[1..]
    else AfterSentinel(items[1..])
  }

  /** The phrases of a state once its buffer is flushed. */
  function Closed(s: Seg): seq<seq<Block>> {
    s.phrases + (if s.buffer == [] then [] else [s.buffer])
  }

  /** The phrases the thread hands to `_transcribe_phrase` for the queue `items`: the
      leftover buffer only once the sentinel has ended the loop. */
  function Emitted(items: seq<Item>): seq<seq<Block>> {
    var s := Scan(PauseBlocks, Idle, items);
    if HasSentinel(items) then Closed(s) else s.phrases
  }

  /** The blocks that are not silent, up to the first sentinel. */
  function Spoken(items: seq<Item>): seq<Block>
    decreases |items|
  {
    if items == [] || items[0].Sentinel? then []
    else (if items[0].silent then [] else [items[0].block]) + Spoken(items[1..])
  }

  function Flatten(ps: seq<seq<Block>>): seq<Block>
    decreases |ps|
  {
    if ps == [] then [] else ps[0] + Flatten(ps[1..])
  }

  /** An independent description of the cut: the maximal runs of blocks that are not
      silent, `cur` being the run in progress. */
  function Runs(cur: seq<Block>, items: seq<Item>): seq<seq<Block>>
    decreases |items|
  {
    if items == [] || items[0].Sentinel? then (if cur == [] then [] else [cur])
    else if items[0].silent then (if cur == [] then [] else [cur]) + Runs([], items[1..])
    else Runs(cur + [items[0].block], items[1..])
  }

  // ---------------------------------------------------------------- segmentation lemmas

  lemma {:induction false} FlattenAppend(ps: seq<seq<Block>>, b: seq<Block>)
    ensures Flatten(ps + [b]) == Flatten(ps) + b
    decreases |ps|
  {
    if ps != [] {
      assert (ps + [b])[1..] == ps[1..] + [b];
      FlattenAppend(ps[1..], b);
    }
  }

  /** No block is lost or duplicated: the phrases and the buffer together are the spoken
      blocks in order, whatever the pause length. */
  lemma {:induction false} ScanConserves(pause: nat, s: Seg, items: seq<Item>)
    ensures var t := Scan(pause, s, items);
      Flatten(t.phrases) + t.buffer == Flatten(s.phrases) + s.buffer + Spoken(items)
    decreases |items|
  {
    if items != [] && items[0].Audio? {
      var s1 := Step(pause, s, items[0].block, items[0].silent);
      ScanConserves(pause, s1, items[1..]);
      if items[0].silent && |s.buffer| > 0 && s.counter + 1 >= pause {
        FlattenAppend(s.phrases, s.buffer);
      }
    }
  }

  /** Only non-empty buffers are ever transcribed, and earlier phrases stay as they were. */
  lemma {:induction false} ScanKeeps(pause: nat, s: Seg, items: seq<Item>)
    requires forall i | 0 <= i < |s.phrases| :: s.phrases[i] != []
    ensures forall i | 0 <= i < |Scan(pause, s, items).phrases| :: Scan(pause, s, items).phrases[i] != []
    ensures s.phrases <= Scan(pause, s, items).phrases
    decreases |items|
  {
    if items != [] && items[0].Audio? {
      ScanKeeps(pause, Step(pause, s, items[0].block, items[0].silent), items[1..]);
    }
  }

  /** With a pause of at most one block the loop cuts exactly at every silent block: the
      flushed phrases are the maximal runs of spoken blocks. */
  lemma {:induction false} ScanIsRuns(pause: nat, s: Seg, items: seq<Item>)
    requires pause <= 1
    ensures Closed(Scan(pause, s, items)) == s.phrases + Runs(s.buffer, items)
    decreases |items|
  {
    if items != [] && items[0].Audio? {
      var s1 := Step(pause, s, items[0].block, items[0].silent);
      ScanIsRuns(pause, s1, items[1..]);
      if items[0].silent && s.buffer != [] {
        assert s1.phrases + Runs([], items[1..]) == s.phrases + ([s.buffer] + Runs([], items[1..]));
      }
    } else {
      assert s.phrases + [] == s.phrases;
    }
  }

  /** Once the thread has seen the sentinel, every spoken block has been transcribed,
      in order, in non-empty phrases that are the maximal runs between silences. */
  lemma EmittedSpec(items: seq<Item>)
    requires HasSentinel(items)
    ensures Emitted(items) == Runs([], items)
    ensures Flatten(Emitted(items)) == Spoken(items)
    ensures forall i | 0 <= i < |Emitted(items)| :: Emitted(items)[i] != []
  {
    PauseIsOneBlock();
    var t := Scan(PauseBlocks, Idle, items);
    assert Flatten(Idle.phrases) + Idle.buffer == [];
    ScanIsRuns(PauseBlocks, Idle, items);
    ScanConserves(PauseBlocks, Idle, items);
    ScanKeeps(PauseBlocks, Idle, items);
    if t.buffer != [] {
      FlattenAppend(t.phrases, t.buffer);
    } else {
      assert Closed(t) == t.phrases;
      assert Flatten(t.phrases) + t.buffer == Flatten(t.phrases);
    }
  }

  /** A queue without a sentinel leaves the last phrase untranscribed, and the sentinel
      `stop` queues flushes it. */
  lemma WithoutSentinelPending(items: seq<Item>)
    requires !HasSentinel(items)
    ensures Closed(Scan(PauseBlocks, Idle, items)) == Runs([], items)
    ensures Emitted(items) == Scan(PauseBlocks, Idle, items).phrases
    ensures Emitted(items + [Sentinel]) == Runs([], items)
  {
    PauseIsOneBlock();
    ScanIsRuns(PauseBlocks, Idle, items);
    ScanSentinelTail(PauseBlocks, Idle, items);
    assert (items + [Sentinel])[|items|].Sentinel?;
  }

  lemma {:induction false} ScanSentinelTail(pause: nat, s: Seg, items: seq<Item>)
    requires !HasSentinel(items)
    ensures Scan(pause, s, items + [Sentinel]) == Scan(pause, s, items)
    decreases |items|
  {
    if items != [] {
      assert items[0].Audio?;
      assert (items + [Sentinel])[1..] == items[1..] + [Sentinel];
      assert !HasSentinel(items[1..]) by {
        forall i | 0 <= i < |items| - 1 ensures items[1..][i].Audio? {
          assert items[1..][i] == items[i + 1];
        }
      }
      ScanSentinelTail(pause, Step(pause, s, items[0].block, items[0].silent), items[1..]);
    }
  }

  // ---------------------------------------------------------------- transcript

  /** The text `_transcribe_phrase` keeps for one phrase, if any. */
  function PhraseTexts(recognize: seq<Block> -> string, b: seq<Block>): seq<string> {
    var t := Trim(recognize(b));
    if t != "" then [t] else []
  }

  /** `_transcribe_phrase` as a function of the phrase. */
  function Keeper(recognize: seq<Block> -> string): seq<Block> -> seq<string> {
    b => PhraseTexts(recognize, b)
  }

  function Concat(f: seq<Block> -> seq<string>, ps: seq<seq<Block>>): seq<string>
    decreases |ps|
  {
    if ps == [] then [] else f(ps[0]) + Concat(f, ps[1..])
  }

  /** The texts kept for the phrases `ps`, in phrase order. */
  function Texts(recognize: seq<Block> -> string, ps: seq<seq<Block>>): seq<string> {
    Concat(Keeper(recognize), ps)
  }

  lemma {:induction false} ConcatAppend(f: seq<Block> -> seq<string>, ps: seq<seq<Block>>, b: seq<Block>)
    ensures Concat(f, ps + [b]) == Concat(f, ps) + f(b)
    decreases |ps|
  {
    var q := ps + [b];
    if ps == [] {
      assert q == [b] && q[1..] == [];
      assert Concat(f, q) == f(b) + [] == f(b);
    } else {
      assert q[0] == ps[0] && q[1..] == ps[1..] + [b];
      ConcatAppend(f, ps[1..], b);
      ConcatAssoc(f(ps[0]), Concat(f, ps[1..]), f(b));
    }
  }

  lemma TextsAppend(recognize: seq<Block> -> string, ps: seq<seq<Block>>, b: seq<Block>)
    ensures Texts(recognize, ps + [b]) == Texts(recognize, ps) + PhraseTexts(recognize, b)
  {
    ConcatAppend(Keeper(recognize), ps, b);
  }

  /** Every kept text is non-empty and already stripped, and there is at most one per
      phrase. */
  lemma {:induction false} TextsClean(recognize: seq<Block> -> string, ps: seq<seq<Block>>)
    ensures |Texts(recognize, ps)| <= |ps|
    ensures forall i | 0 <= i < |Texts(recognize, ps)| ::
      Texts(recognize, ps)[i] != "" && Trim(Texts(recognize, ps)[i]) == Texts(recognize, ps)[i]
    decreases |ps|
  {
    if ps != [] {
      TrimIdempotent(recognize(ps[0]));
      TextsClean(recognize, ps[1..]);
    }
  }

  // ---------------------------------------------------------------- summary

  /** What `summarize_transcript` would post: the Ollama endpoint and the joined text. */
  datatype SummaryRequest = SummaryRequest(url: string, fullText: string)

  /** Nothing without a host (`None` or empty) or without transcribed text. */
  function SummaryRequestFor(host: Option<string>, transcript: seq<string>): (r: Option<SummaryRequest>)
    ensures r.Some? <==> host.Some? && host.value != "" && transcript != []
  {
    if host.None? || host.value == "" || transcript == [] then None
    else Some(SummaryRequest("http://" + host.value + ":11434/api/generate", JoinSpaces(transcript)))
  }

  /** Every phrase of the transcript appears in the joined text, preceded by the phrases
      before it and one space after each of them. */
  lemma {:induction false} JoinedHoldsPhrase(xs: seq<string>, i: nat)
    requires i < |xs|
    ensures var k := SumLengths(xs[..i]) + i;
      k + |xs[i]| <= |JoinSpaces(xs)| && JoinSpaces(xs)[k..k + |xs[i]|] == xs[i]
    decreases |xs|
  {
    if i == 0 {
      assert xs[..0] == [];
      if |xs| > 1 {
        assert JoinSpaces(xs) == xs[0] + (" " + JoinSpaces(xs[1..]));
      }
    } else {
      var ys := xs[1..];
      JoinedHoldsPhrase(ys, i - 1);
      assert xs[..i][1..] == ys[..i - 1];
      assert SumLengths(xs[..i]) == |xs[0]| + SumLengths(ys[..i - 1]);
      var k := SumLengths(ys[..i - 1]) + (i - 1);
      var pre := xs[0] + " ";
      assert JoinSpaces(xs) == pre + JoinSpaces(ys);
      assert JoinSpaces(xs)[|pre| + k..|pre| + k + |xs[i]|] == JoinSpaces(ys)[k..k + |ys[i - 1]|];
    }
  }

  lemma SummarySpec(host: Option<string>, transcript: seq<string>)
    requires host.Some? && host.value != "" && transcript != []
    ensures var r := SummaryRequestFor(host, transcript).value;
      && |r.fullText| == SumLengths(transcript) + |transcript| - 1
      && r.url[..7] == "http://" && r.url[7..7 + |host.value|] == host.value
  {
    JoinSpacesLength(transcript);
  }

  // ---------------------------------------------------------------- the transcriber

  class Transcriber {
    const ollamaHost: Option<string>
    var audioQueue: seq<Item>
    var fullTranscript: seq<string>
    var isRunning: bool

    constructor (ollamaHost: Option<string>)
      ensures this.ollamaHost == ollamaHost
      ensures audioQueue == [] && fullTranscript == [] && !isRunning
    {
      this.ollamaHost := ollamaHost;
      audioQueue, fullTranscript, isRunning := [], [], false;
    }

    /** `_audio_callback`: the stream hands over one block. */
    method AudioCallback(b: Block, silent: bool)
      modifies this
      ensures audioQueue == old(audioQueue) + [Audio(b, silent)]
      ensures fullTranscript == old(fullTranscript) && isRunning == old(isRunning)
    {
      audioQueue := audioQueue + [Audio(b, silent)];
    }

    /** `start`, without loading the model, the thread and the input stream. */
    method Start()
      modifies this
      ensures isRunning
      ensures audioQueue == old(audioQueue) && fullTranscript == old(fullTranscript)
    {
      isRunning := true;
    }

    /** `stop`: only a running transcriber is stopped, so the sentinel is queued once. */
    method Stop()
      modifies this
      ensures !isRunning
      ensures old(isRunning) ==> audioQueue == old(audioQueue) + [Sentinel]
      ensures !old(isRunning) ==> audioQueue == old(audioQueue)
      ensures fullTranscript == old(fullTranscript)
    {
      if isRunning {
        isRunning := false;
        audioQueue := audioQueue + [Sentinel];
      }
    }

    /** `_transcribe_phrase`: the stripped recognised text is kept only if non-empty. */
    method TranscribePhrase(buffer: seq<Block>, recognize: seq<Block> -> string)
      modifies this
      ensures fullTranscript == old(fullTranscript) + PhraseTexts(recognize, buffer)
      ensures audioQueue == old(audioQueue) && isRunning == old(isRunning)
    {
      var text := Trim(recognize(buffer));
      if text != "" {
        fullTranscript := fullTranscript + [text];
      }
    }

    /** `_process_audio` on the queued items: it takes blocks until the sentinel, and
        `finished` tells whether it met one (otherwise the thread is still waiting). */
    method ProcessAudio(recognize: seq<Block> -> string) returns (finished: bool)
      modifies this
      ensures finished == HasSentinel(old(audioQueue))
      ensures fullTranscript == old(fullTranscript) + Texts(recognize, Emitted(old(audioQueue)))
      ensures audioQueue == AfterSentinel(old(audioQueue))
      ensures isRunning == old(isRunning)
    {
      ghost var q0 := audioQueue;
      var pause: nat := (SilenceDurationS * WhisperSampleRate) / BlockSize;
      var buffer: seq<Block> := [];
      var counter: nat := 0;
      ghost var phrases: seq<seq<Block>> := [];
      while audioQueue != [] && audioQueue[0].Audio?
        invariant Scan(pause, Seg(buffer, counter, phrases), audioQueue) == Scan(PauseBlocks, Idle, q0)
        invariant HasSentinel(audioQueue) == HasSentinel(q0)
        invariant AfterSentinel(audioQueue) == AfterSentinel(q0)
        invariant fullTranscript == old(fullTranscript) + Texts(recognize, phrases)
        invariant isRunning == old(isRunning)
        decreases |audioQueue|
      {
        var item := audioQueue[0];
        AfterAudio(audioQueue);
        ghost var s := Seg(buffer, counter, phrases);
        assert Scan(pause, s, audioQueue) == Scan(pause, Step(pause, s, item.block, item.silent), audioQueue[1..]);
        audioQueue := audioQueue[1..];
        if item.silent {
          if |buffer| > 0 {
            counter := counter + 1;
            if counter >= pause {
              ghost var done := Texts(recognize, phrases);
              ghost var kept := PhraseTexts(recognize, buffer);
              TranscribePhrase(buffer, recognize);
              TextsAppend(recognize, phrases, buffer);
              ConcatAssoc(old(fullTranscript), done, kept);
              phrases := phrases + [buffer];
              buffer := [];
              counter := 0;
            }
          }
          assert Seg(buffer, counter, phrases) == Step(pause, s, item.block, item.silent);
          continue;
        }
        buffer := buffer + [item.block];
        counter := 0;
        assert Seg(buffer, counter, phrases) == Step(pause, s, item.block, item.silent);
      }
      finished := audioQueue != [];
      assert Seg(buffer, counter, phrases) == Scan(PauseBlocks, Idle, q0);
      if finished {
        assert HasSentinel(q0) by { assert audioQueue[0].Sentinel?; }
        audioQueue := audioQueue[1..];
        if |buffer| > 0 {
          ghost var done := Texts(recognize, phrases);
          ghost var kept := PhraseTexts(recognize, buffer);
          TranscribePhrase(buffer, recognize);
          TextsAppend(recognize, phrases, buffer);
          ConcatAssoc(old(fullTranscript), done, kept);
          assert Emitted(q0) == phrases + [buffer];
        } else {
          assert Emitted(q0) == phrases + [];
          assert phrases + [] == phrases;
        }
      } else {
        assert !HasSentinel(q0);
        assert Emitted(q0) == phrases;
      }
    }

    /** `summarize_transcript` up to the request it posts. */
    method SummarizeTranscript() returns (request: Option<SummaryRequest>)
      ensures request == SummaryRequestFor(ollamaHost, fullTranscript)
    {
      if ollamaHost.None? || ollamaHost.value == "" {
        return None;
      }
      if fullTranscript == [] {
        return None;
      }
      var fullText := JoinSpaces(fullTranscript);
      request := Some(SummaryRequest("http://" + ollamaHost.value + ":11434/api/generate", fullText));
    }
  }

  lemma ConcatAssoc(a: seq<string>, b: seq<string>, c: seq<string>)
    ensures (a + b) + c == a + (b + c)
  {
  }

  /** Taking a block off the front keeps what follows the sentinel, and whether there is
      one. */
  lemma AfterAudio(items: seq<Item>)
    requires items != [] && items[0].Audio?
    ensures AfterSentinel(items[1..]) == AfterSentinel(items)
    ensures HasSentinel(items[1..]) == HasSentinel(items)
  {
    if HasSentinel(items) {
      var i :| 0 <= i < |items| && items[i].Sentinel?;
      assert items[1..][i - 1] == items[i];
    }
    if HasSentinel(items[1..]) {
      var i :| 0 <= i < |items| - 1 && items[1..][i].Sentinel?;
      assert items[i + 1] == items[1..][i];
    }
  }
}
