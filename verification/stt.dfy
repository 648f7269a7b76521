/**
 * The recorder of stt_helper.py: a `SpeechRecognizer` whose flags and
 * buffers the recording methods update in place, and the read loop of
 * `listen_and_transcribe`.
 *
 * The microphone, the clock, the stop button pressed from the GUI thread,
 * and the moments at which a dispatched chunk's background transcription
 * runs are inputs: the loop consumes one `Tick` per iteration. Whisper is an
 * oracle from audio bytes to its segment texts, or `None` when it raises.
 * Times are seconds elapsed since the loop started.
 */
module SpeechToText {
  import opened Wrappers
  import opened Text

  type Bytes = seq<bv8>

  /** `model.transcribe`: the texts of the segments, or None when it raises. */
  type Whisper = Bytes -> Option<seq<string>>

  /** `b"".join(frames)`. */
  function Concat(frames: seq<Bytes>): (b: Bytes)
    ensures frames == [] ==> b == []
  {
    if frames == [] then [] else Concat(frames[..|frames| - 1]) + frames[|frames| - 1]
  }

  /** `" ".join(seg.text for seg in segments).strip()`, or "" when Whisper raises. */
  function Transcribed(whisper: Whisper, audio: Bytes): (text: string)
    ensures text == [] || (!IsSpace(text[0]) && !IsSpace(text[|text| - 1]))
  {
    match whisper(audio)
    case None => ""
    case Some(segs) => Strip(Join(" ", segs))
  }

  /** The fields of a SpeechRecognizer; `stream` and `pyaudio_instance` as open or None. */
  datatype Recorder = Recorder(
    recording: bool,
    stoppedManually: bool,
    frames: seq<Bytes>,
    transcribedText: seq<string>,
    streamOpen: bool,
    instanceOpen: bool,
    transcriptionActive: bool)

  /** The recorder after `start_recording`; when opening the stream fails it is left closed and off. */
  function Started(r: Recorder, openFails: bool): Recorder {
    Recorder(!openFails, false, [], [], !openFails, !openFails, false)
  }

  /** The recorder after `stop_recording`, whether or not closing the stream fails. */
  function Stopped(r: Recorder): Recorder {
    r.(recording := false, stoppedManually := true, streamOpen := false, instanceOpen := false,
       transcriptionActive := false)
  }

  /**
   * The recorder after `_transcribe_chunk(audio)`: the text is kept only when
   * recording is on, the encoding was not too slow and the text is not empty.
   */
  function ChunkDone(whisper: Whisper, r: Recorder, audio: Bytes, encodeSlow: bool): Recorder {
    var text := Transcribed(whisper, audio);
    if r.recording && !encodeSlow && text != "" then
      r.(transcribedText := r.transcribedText + [text], transcriptionActive := false)
    else
      r.(transcriptionActive := false)
  }

  /** `stop_recording` leaves the recorder off, closed and idle, its buffers untouched. */
  lemma StoppedIsIdle(r: Recorder)
    ensures var s := Stopped(r);
      && !s.recording && s.stoppedManually && !s.streamOpen && !s.instanceOpen && !s.transcriptionActive
      && s.frames == r.frames && s.transcribedText == r.transcribedText
  {
  }

  /**
   * What the outside world does during one iteration of the read loop:
   * whether the stop button was pressed since the last one, whether the
   * pending chunk's thread ran (and whether its WAV encoding overran the
   * 5-second check), the clock, and the audio read (None when it raises).
   */
  datatype Tick = Tick(stopPressed: bool, chunkRuns: bool, encodeSlow: bool, now: real, read: Option<Bytes>)

  /** The loop's state: the recorder, `chunk_frames`, `chunk_start`, the dispatched chunks whose thread has not run, and whether the loop has ended. */
  datatype Listening = Listening(rec: Recorder, chunk: seq<Bytes>, chunkStart: real, pending: seq<Bytes>, done: bool)

  /** What happens off the loop's thread before an iteration: a stop press, then a chunk transcription. */
  function Interleave(whisper: Whisper, l: Listening, t: Tick): Listening {
    var r := if t.stopPressed then Stopped(l.rec) else l.rec;
    if t.chunkRuns && l.pending != [] then
      l.(rec := ChunkDone(whisper, r, l.pending[0], t.encodeSlow), pending := l.pending[1..])
    else l.(rec := r)
  }

  /** One iteration of the read loop, or nothing once it has ended. */
  function Iteration(whisper: Whisper, timeout: real, chunkDuration: real, l: Listening, t: Tick): Listening {
    if l.done then l
    else
      var m := Interleave(whisper, l, t);
      if !(m.rec.recording && t.now < timeout) then m.(done := true)
      else if !m.rec.streamOpen || !m.rec.recording then m.(done := true)
      else if t.read.None? then m.(done := true)
      else Received(chunkDuration, m, t.read.value, t.now)
  }

  /**
   * A read of `data` at time `now`: the bytes join `frames` and the chunk,
   * and the chunk is handed to a new thread once it spans `chunkDuration`
   * and no transcription is running.
   */
  function Received(chunkDuration: real, m: Listening, data: Bytes, now: real): Listening {
    var rec := m.rec.(frames := m.rec.frames + [data]);
    var chunk := m.chunk + [data];
    if now - m.chunkStart >= chunkDuration && !rec.transcriptionActive then
      m.(rec := rec.(transcriptionActive := true), chunk := [], chunkStart := now, pending := m.pending + [Concat(chunk)])
    else
      m.(rec := rec, chunk := chunk)
  }

  /** The loop over the given ticks; running out of ticks ends it as the timeout would. */
  function Loop(whisper: Whisper, timeout: real, chunkDuration: real, l: Listening, ticks: seq<Tick>): Listening {
    if ticks == [] then l
    else
      var k := |ticks| - 1;
      Iteration(whisper, timeout, chunkDuration, Loop(whisper, timeout, chunkDuration, l, ticks[..k]), ticks[k])
  }

  /** The dictionary `listen_and_transcribe` returns. */
  datatype Reply = Reply(text: string, duration: real, stoppedManually: bool)

  /** `start_recording` raised; the handler then reads the unassigned `start_time` and raises. */
  datatype ListenError = StartFailed

  /** The state at the start of the loop. */
  function Opened(r: Recorder): Listening {
    Listening(Started(r, false), [], 0.0, [], false)
  }

  /** The returned text: the pass over all frames when it gives text, else the partial texts. */
  function ChosenText(whisper: Whisper, r: Recorder): string {
    var final := if r.frames != [] then Transcribed(whisper, Concat(r.frames)) else "";
    if final != "" then final else Join(" ", r.transcribedText)
  }

  /** `listen_and_transcribe`: the recorder afterwards and the reply. */
  function Listened(whisper: Whisper, r: Recorder, timeout: real, chunkDuration: real, openFails: bool,
                    ticks: seq<Tick>, endTime: real): (Recorder, Result<Reply, ListenError>)
  {
    if openFails then (Stopped(Started(r, true)), Err(StartFailed))
    else
      var l := Loop(whisper, timeout, chunkDuration, Opened(r), ticks);
      var s := Stopped(l.rec);
      (s, Ok(Reply(ChosenText(whisper, s), endTime, l.rec.stoppedManually)))
  }

  class SpeechRecognizer {
    /** `self.model`. */
    const whisper: Whisper
    var recording: bool
    var stoppedManually: bool
    var frames: seq<Bytes>
    var transcribedText: seq<string>
    var streamOpen: bool
    var instanceOpen: bool
    var transcriptionActive: bool

    function State(): Recorder
      reads this
    {
      Recorder(recording, stoppedManually, frames, transcribedText, streamOpen, instanceOpen, transcriptionActive)
    }

    constructor (model: Whisper)
      ensures whisper == model
      ensures State() == Recorder(false, false, [], [], false, false, false)
    {
      whisper := model;
      recording, stoppedManually := false, false;
      frames, transcribedText := [], [];
      streamOpen, instanceOpen, transcriptionActive := false, false, false;
    }

    /** `start_recording`: `ok` is false where the program re-raises the stream error. */
    method StartRecording(openFails: bool) returns (ok: bool)
      modifies this
      ensures ok == !openFails
      ensures State() == Started(old(State()), openFails)
    {
      frames := [];
      transcribedText := [];
      recording := true;
      stoppedManually := false;
      transcriptionActive := false;
      if openFails {
        recording := false;
        streamOpen, instanceOpen := false, false;
        return false;
      }
      streamOpen, instanceOpen := true, true;
      return true;
    }

    /** `stop_recording`; `closeFails` is the stream or PyAudio raising while being closed. */
    method StopRecording(closeFails: bool)
      modifies this
      ensures State() == Stopped(old(State()))
    {
      recording := false;
      stoppedManually := true;
      if closeFails {
        streamOpen, instanceOpen := false, false;
      } else {
        if streamOpen {
          streamOpen := false;
        }
        if instanceOpen {
          instanceOpen := false;
        }
      }
      transcriptionActive := false;
    }

    /** `_transcribe_chunk(audio)`, run to completion as one step. */
    method TranscribeChunk(audio: Bytes, encodeSlow: bool)
      modifies this
      ensures State() == ChunkDone(whisper, old(State()), audio, encodeSlow)
    {
      if !recording {
        transcriptionActive := false;
        return;
      }
      if encodeSlow {
        transcriptionActive := false;
        return;
      }
      var text := Transcribed(whisper, audio);
      if text != "" && recording {
        transcribedText := transcribedText + [text];
      }
      transcriptionActive := false;
    }

    /** The events of a tick that happen on other threads. */
    method Interleaved(pending: seq<Bytes>, t: Tick) returns (pending': seq<Bytes>)
      modifies this
      ensures var l := Interleave(whisper, Listening(old(State()), [], 0.0, pending, false), t);
        State() == l.rec && pending' == l.pending
    {
      if t.stopPressed {
        StopRecording(false);
      }
      pending' := pending;
      if t.chunkRuns && pending != [] {
        TranscribeChunk(pending[0], t.encodeSlow);
        pending' := pending[1..];
      }
    }

    /** One iteration of the read loop (`Iteration`). */
    method Step(timeout: real, chunkDuration: real, chunk: seq<Bytes>, chunkStart: real, pending: seq<Bytes>, t: Tick)
      returns (chunk': seq<Bytes>, chunkStart': real, pending': seq<Bytes>, done: bool)
      modifies this
      ensures Listening(State(), chunk', chunkStart', pending', done)
           == Iteration(whisper, timeout, chunkDuration, Listening(old(State()), chunk, chunkStart, pending, false), t)
    {
      pending' := Interleaved(pending, t);
      chunk', chunkStart', done := chunk, chunkStart, true;
      if !(recording && t.now < timeout) {
        return;
      }
      if !streamOpen || !recording {
        return;
      }
      if t.read.None? {
        return;
      }
      var data := t.read.value;
      chunk' := chunk' + [data];
      frames := frames + [data];
      done := false;
      if t.now - chunkStart >= chunkDuration && !transcriptionActive {
        transcriptionActive := true;
        pending' := pending' + [Concat(chunk')];
        chunk' := [];
        chunkStart' := t.now;
      }
    }

    /** `listen_and_transcribe`. */
    method ListenAndTranscribe(timeout: real, chunkDuration: real, openFails: bool, ticks: seq<Tick>, endTime: real)
      returns (r: Result<Reply, ListenError>)
      modifies this
      ensures (State(), r) == Listened(whisper, old(State()), timeout, chunkDuration, openFails, ticks, endTime)
    {
      var ok := StartRecording(openFails);
      if !ok {
        StopRecording(false);
        return Err(StartFailed);
      }
      var chunk: seq<Bytes> := [];
      var chunkStart: real := 0.0;
      var pending: seq<Bytes> := [];
      var done := false;
      var i := 0;
      while i < |ticks| && !done
        invariant 0 <= i <= |ticks|
        invariant Listening(State(), chunk, chunkStart, pending, done)
               == Loop(whisper, timeout, chunkDuration, Opened(old(State())), ticks[..i])
        decreases |ticks| - i
      {
        assert ticks[..i + 1][..i] == ticks[..i];
        chunk, chunkStart, pending, done := Step(timeout, chunkDuration, chunk, chunkStart, pending, ticks[i]);
        i := i + 1;
      }
      LoopStaysDone(whisper, timeout, chunkDuration, Opened(old(State())), ticks, i);
      var was := stoppedManually;
      StopRecording(false);
      var finalText := "";
      if frames != [] {
        finalText := Transcribed(whisper, Concat(frames));
      }
      var text := if finalText != "" then finalText else Join(" ", transcribedText);
      return Ok(Reply(text, endTime, was));
    }
  }

  /** Once the loop has ended, later ticks change nothing. */
  lemma {:induction false} LoopStaysDone(whisper: Whisper, timeout: real, chunkDuration: real, l: Listening,
                                         ticks: seq<Tick>, i: nat)
    requires i <= |ticks|
    requires i == |ticks| || Loop(whisper, timeout, chunkDuration, l, ticks[..i]).done
    ensures Loop(whisper, timeout, chunkDuration, l, ticks) == Loop(whisper, timeout, chunkDuration, l, ticks[..i])
    decreases |ticks| - i
  {
    if i < |ticks| {
      assert ticks[..i + 1][..i] == ticks[..i];
      LoopStaysDone(whisper, timeout, chunkDuration, l, ticks, i + 1);
    } else {
      assert ticks[..i] == ticks;
    }
  }

  /**
   * What holds of the read loop throughout: `chunk_frames` is the tail of
   * `frames` read since the last dispatch, at most one chunk waits for its
   * thread, and while recording the busy flag is set exactly when one does,
   * and every partial text is non-empty.
   */
  predicate Sound(l: Listening) {
    && |l.chunk| <= |l.rec.frames| && l.chunk == l.rec.frames[|l.rec.frames| - |l.chunk|..]
    && |l.pending| <= 1
    && (l.rec.recording ==> (l.rec.transcriptionActive <==> l.pending != []))
    && (forall x :: x in l.rec.transcribedText ==> x != "")
  }

  lemma InterleaveSound(whisper: Whisper, l: Listening, t: Tick)
    requires Sound(l)
    ensures Sound(Interleave(whisper, l, t))
  {
    var r := if t.stopPressed then Stopped(l.rec) else l.rec;
    if t.chunkRuns && l.pending != [] {
      assert l.pending[1..] == [];
    }
  }

  lemma ReceivedSound(chunkDuration: real, m: Listening, data: Bytes, now: real)
    requires Sound(m) && m.rec.recording
    ensures Sound(Received(chunkDuration, m, data, now))
  {
    var frames := m.rec.frames + [data];
    var chunk := m.chunk + [data];
    assert chunk == frames[|frames| - |chunk|..];
  }

  lemma IterationSound(whisper: Whisper, timeout: real, chunkDuration: real, l: Listening, t: Tick)
    requires Sound(l)
    ensures Sound(Iteration(whisper, timeout, chunkDuration, l, t))
  {
    if !l.done {
      var m := Interleave(whisper, l, t);
      InterleaveSound(whisper, l, t);
      if m.rec.recording && t.read.Some? {
        ReceivedSound(chunkDuration, m, t.read.value, t.now);
      }
    }
  }

  lemma {:induction false} LoopSound(whisper: Whisper, timeout: real, chunkDuration: real, r: Recorder, ticks: seq<Tick>)
    ensures Sound(Loop(whisper, timeout, chunkDuration, Opened(r), ticks))
  {
    if ticks != [] {
      var k := |ticks| - 1;
      LoopSound(whisper, timeout, chunkDuration, r, ticks[..k]);
      IterationSound(whisper, timeout, chunkDuration, Loop(whisper, timeout, chunkDuration, Opened(r), ticks[..k]), ticks[k]);
    }
  }

  /** The audio the ticks' reads returned, in order; a failed read returns nothing. */
  function Reads(ticks: seq<Tick>): (b: seq<Bytes>)
    ensures |b| <= |ticks|
  {
    if ticks == [] then []
    else
      var t := ticks[|ticks| - 1];
      Reads(ticks[..|ticks| - 1]) + (if t.read.Some? then [t.read.value] else [])
  }

  /** How many ticks found the loop running and went on: all of them, or those before the one that ended it. */
  function Consumed(whisper: Whisper, timeout: real, chunkDuration: real, r: Recorder, ticks: seq<Tick>): (n: nat)
    ensures n <= |ticks|
  {
    if ticks == [] || !Loop(whisper, timeout, chunkDuration, Opened(r), ticks).done then |ticks|
    else Consumed(whisper, timeout, chunkDuration, r, ticks[..|ticks| - 1])
  }

  /**
   * An ended loop stays as it is; an iteration that keeps the loop running
   * read audio and appended it to `frames`; one that ends it leaves
   * `frames` as they were.
   */
  lemma IterationFrames(whisper: Whisper, timeout: real, chunkDuration: real, l: Listening, t: Tick)
    ensures var l' := Iteration(whisper, timeout, chunkDuration, l, t);
            && (l.done ==> l' == l)
            && (!l'.done ==> t.read.Some? && l'.rec.frames == l.rec.frames + [t.read.value])
            && (l'.done ==> l'.rec.frames == l.rec.frames)
  {
    if !l.done {
      var m := Interleave(whisper, l, t);
      var r := if t.stopPressed then Stopped(l.rec) else l.rec;
      assert r.frames == l.rec.frames;
      if t.chunkRuns && l.pending != [] {
        assert ChunkDone(whisper, r, l.pending[0], t.encodeSlow).frames == r.frames;
      }
      assert m.rec.frames == l.rec.frames && !m.done;
    }
  }

  /**
   * The loop reads every tick until it ends: each of the first `n` ticks
   * read audio, `frames` holds exactly that audio in order, and the loop
   * ended at tick `n` when ticks remain.
   */
  predicate FramesRead(whisper: Whisper, timeout: real, chunkDuration: real, r: Recorder, ticks: seq<Tick>) {
    var n := Consumed(whisper, timeout, chunkDuration, r, ticks);
    var l := Loop(whisper, timeout, chunkDuration, Opened(r), ticks);
    && (forall j :: 0 <= j < n ==> ticks[j].read.Some?)
    && l.rec.frames == Reads(ticks[..n])
    && |l.rec.frames| == n
    && (n < |ticks| ==> Loop(whisper, timeout, chunkDuration, Opened(r), ticks[..n + 1]).done)
  }

  /** A tick that keeps the loop running extends what the loop has read by that tick's audio. */
  lemma FramesReadRunning(whisper: Whisper, timeout: real, chunkDuration: real, r: Recorder, ticks: seq<Tick>)
    requires ticks != [] && FramesRead(whisper, timeout, chunkDuration, r, ticks[..|ticks| - 1])
    requires !Loop(whisper, timeout, chunkDuration, Opened(r), ticks).done
    ensures FramesRead(whisper, timeout, chunkDuration, r, ticks)
  {
    var k := |ticks| - 1;
    var init := ticks[..k];
    var n0 := Consumed(whisper, timeout, chunkDuration, r, init);
    var li := Loop(whisper, timeout, chunkDuration, Opened(r), init);
    assert Loop(whisper, timeout, chunkDuration, Opened(r), ticks) == Iteration(whisper, timeout, chunkDuration, li, ticks[k]);
    IterationFrames(whisper, timeout, chunkDuration, li, ticks[k]);
    assert !li.done;
    assert n0 == k && Consumed(whisper, timeout, chunkDuration, r, ticks) == |ticks|;
    assert init[..n0] == init;
    assert ticks[..|ticks|] == ticks;
    assert Reads(ticks) == Reads(init) + [ticks[k].read.value];
    forall j | 0 <= j < |ticks| ensures ticks[j].read.Some? {
      if j < k { assert init[j] == ticks[j]; }
    }
  }

  /** Once the loop has ended, further ticks change neither what it read nor where it stopped. */
  lemma FramesReadEnded(whisper: Whisper, timeout: real, chunkDuration: real, r: Recorder, ticks: seq<Tick>)
    requires ticks != [] && FramesRead(whisper, timeout, chunkDuration, r, ticks[..|ticks| - 1])
    requires Loop(whisper, timeout, chunkDuration, Opened(r), ticks).done
    ensures FramesRead(whisper, timeout, chunkDuration, r, ticks)
  {
    var k := |ticks| - 1;
    var init := ticks[..k];
    var n0 := Consumed(whisper, timeout, chunkDuration, r, init);
    var li := Loop(whisper, timeout, chunkDuration, Opened(r), init);
    assert Loop(whisper, timeout, chunkDuration, Opened(r), ticks) == Iteration(whisper, timeout, chunkDuration, li, ticks[k]);
    IterationFrames(whisper, timeout, chunkDuration, li, ticks[k]);
    assert init[..n0] == ticks[..n0];
    assert Consumed(whisper, timeout, chunkDuration, r, ticks) == n0;
    forall j | 0 <= j < n0 ensures ticks[j].read.Some? {
      assert init[j] == ticks[j];
    }
    if n0 < k {
      assert init[..n0 + 1] == ticks[..n0 + 1];
    } else {
      assert ticks[..n0 + 1] == ticks;
    }
  }

  lemma {:induction false} LoopFrames(whisper: Whisper, timeout: real, chunkDuration: real, r: Recorder, ticks: seq<Tick>)
    ensures var n := Consumed(whisper, timeout, chunkDuration, r, ticks);
            var l := Loop(whisper, timeout, chunkDuration, Opened(r), ticks);
            && (forall j :: 0 <= j < n ==> ticks[j].read.Some?)
            && l.rec.frames == Reads(ticks[..n])
            && |l.rec.frames| == n
            && (n < |ticks| ==> Loop(whisper, timeout, chunkDuration, Opened(r), ticks[..n + 1]).done)
  {
    if ticks == [] {
      assert ticks[..0] == [];
    } else {
      LoopFrames(whisper, timeout, chunkDuration, r, ticks[..|ticks| - 1]);
      if !Loop(whisper, timeout, chunkDuration, Opened(r), ticks).done {
        FramesReadRunning(whisper, timeout, chunkDuration, r, ticks);
      } else {
        FramesReadEnded(whisper, timeout, chunkDuration, r, ticks);
      }
    }
  }

  /** A stop was pressed at some tick that found the loop still running. */
  ghost predicate StopSeen(whisper: Whisper, timeout: real, chunkDuration: real, r: Recorder, ticks: seq<Tick>) {
    exists j :: 0 <= j < |ticks| && ticks[j].stopPressed && !Loop(whisper, timeout, chunkDuration, Opened(r), ticks[..j]).done
  }

  /** An iteration marks a stop by hand exactly when one was already marked or the button is pressed while the loop runs. */
  lemma IterationStopFlag(whisper: Whisper, timeout: real, chunkDuration: real, l: Listening, t: Tick)
    ensures Iteration(whisper, timeout, chunkDuration, l, t).rec.stoppedManually
        <==> l.rec.stoppedManually || (t.stopPressed && !l.done)
  {
    if !l.done {
      var m := Interleave(whisper, l, t);
      InterleaveStopFlag(whisper, l, t);
      if m.rec.recording && t.now < timeout && m.rec.streamOpen && t.read.Some? {
        ReceivedKeepsStopFlag(chunkDuration, m, t.read.value, t.now);
      }
    }
  }

  lemma InterleaveStopFlag(whisper: Whisper, l: Listening, t: Tick)
    ensures Interleave(whisper, l, t).rec.stoppedManually <==> l.rec.stoppedManually || t.stopPressed
  {
    var r := if t.stopPressed then Stopped(l.rec) else l.rec;
    assert r.stoppedManually <==> l.rec.stoppedManually || t.stopPressed;
    if t.chunkRuns && l.pending != [] {
      assert ChunkDone(whisper, r, l.pending[0], t.encodeSlow).stoppedManually == r.stoppedManually;
    }
  }

  lemma ReceivedKeepsStopFlag(chunkDuration: real, m: Listening, data: Bytes, now: real)
    ensures Received(chunkDuration, m, data, now).rec.stoppedManually == m.rec.stoppedManually
  {
  }

  lemma StopSeenSnoc(whisper: Whisper, timeout: real, chunkDuration: real, r: Recorder, ticks: seq<Tick>)
    requires ticks != []
    ensures var k := |ticks| - 1;
      StopSeen(whisper, timeout, chunkDuration, r, ticks)
      <==> StopSeen(whisper, timeout, chunkDuration, r, ticks[..k])
           || (ticks[k].stopPressed && !Loop(whisper, timeout, chunkDuration, Opened(r), ticks[..k]).done)
  {
    var k := |ticks| - 1;
    var init := ticks[..k];
    if StopSeen(whisper, timeout, chunkDuration, r, init) {
      var j :| 0 <= j < k && init[j].stopPressed && !Loop(whisper, timeout, chunkDuration, Opened(r), init[..j]).done;
      assert init[..j] == ticks[..j];
    }
    if StopSeen(whisper, timeout, chunkDuration, r, ticks) {
      var j :| 0 <= j < |ticks| && ticks[j].stopPressed && !Loop(whisper, timeout, chunkDuration, Opened(r), ticks[..j]).done;
      if j < k {
        assert init[..j] == ticks[..j];
      }
    }
  }

  lemma {:induction false} LoopStopFlag(whisper: Whisper, timeout: real, chunkDuration: real, r: Recorder, ticks: seq<Tick>)
    ensures Loop(whisper, timeout, chunkDuration, Opened(r), ticks).rec.stoppedManually
        <==> StopSeen(whisper, timeout, chunkDuration, r, ticks)
  {
    if ticks != [] {
      var k := |ticks| - 1;
      LoopStopFlag(whisper, timeout, chunkDuration, r, ticks[..k]);
      IterationStopFlag(whisper, timeout, chunkDuration, Loop(whisper, timeout, chunkDuration, Opened(r), ticks[..k]), ticks[k]);
      StopSeenSnoc(whisper, timeout, chunkDuration, r, ticks);
    }
  }

  /** `" ".join` of non-empty strings is empty only for the empty list. */
  lemma {:induction false} JoinEmpty(xs: seq<string>)
    requires forall x :: x in xs ==> x != ""
    ensures Join(" ", xs) == "" <==> xs == []
  {
    if |xs| == 1 {
      assert xs[0] in xs;
    }
  }

  /**
   * A failed start: the call raises, and the recorder is left off, closed,
   * idle, marked as stopped by hand and with empty buffers.
   */
  lemma ListenStartFails(whisper: Whisper, r: Recorder, timeout: real, chunkDuration: real, ticks: seq<Tick>, endTime: real)
    ensures Listened(whisper, r, timeout, chunkDuration, true, ticks, endTime)
         == (Recorder(false, true, [], [], false, false, false), Err(StartFailed))
  {
  }

  /**
   * A normal run: the recorder ends off, closed and idle with every partial
   * text non-empty; the reply reports a stop by hand exactly when the stop
   * button was pressed while the loop ran; its text is the full pass when
   * that gives text and the partials otherwise, and it is empty only when
   * both are.
   */
  lemma ListenFacts(whisper: Whisper, r: Recorder, timeout: real, chunkDuration: real, ticks: seq<Tick>, endTime: real)
    ensures var (s, res) := Listened(whisper, r, timeout, chunkDuration, false, ticks, endTime);
      var final := if s.frames != [] then Transcribed(whisper, Concat(s.frames)) else "";
      && res.Ok?
      && !s.recording && s.stoppedManually && !s.streamOpen && !s.instanceOpen && !s.transcriptionActive
      && (forall x :: x in s.transcribedText ==> x != "")
      && (res.value.stoppedManually <==> StopSeen(whisper, timeout, chunkDuration, r, ticks))
      && res.value.duration == endTime
      && (final != "" ==> res.value.text == final)
      && (final == "" ==> res.value.text == Join(" ", s.transcribedText))
      && (res.value.text == "" <==> final == "" && s.transcribedText == [])
  {
    LoopSound(whisper, timeout, chunkDuration, r, ticks);
    LoopStopFlag(whisper, timeout, chunkDuration, r, ticks);
    var l := Loop(whisper, timeout, chunkDuration, Opened(r), ticks);
    JoinEmpty(l.rec.transcribedText);
  }

  /**
   * A normal run keeps in `frames` exactly the audio of the reads made
   * until the loop ended, every one of which succeeded, and the reply's
   * text is the transcription of all of it whenever that is not empty.
   */
  lemma ListenFrames(whisper: Whisper, r: Recorder, timeout: real, chunkDuration: real, ticks: seq<Tick>, endTime: real)
    ensures var (s, res) := Listened(whisper, r, timeout, chunkDuration, false, ticks, endTime);
      var n := Consumed(whisper, timeout, chunkDuration, r, ticks);
      var audio := Reads(ticks[..n]);
      && (forall j :: 0 <= j < n ==> ticks[j].read.Some?)
      && s.frames == audio && |audio| == n
      && (n > 0 && Transcribed(whisper, Concat(audio)) != "" ==> res.Ok? && res.value.text == Transcribed(whisper, Concat(audio)))
  {
    LoopFrames(whisper, timeout, chunkDuration, r, ticks);
  }
}
