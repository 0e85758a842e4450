/**
 What every slot of a copy job keeps, and what that says about every run: no byte is
 lost, doubled or reordered; the backlog is bounded; the final verdict is right.
 */
module CopyJobSafety {
  import opened CopyJobSpec

  /** Stream fidelity: what the sink accepted, then the buffer, is what was read. */
  ghost predicate Faithful(p: Pipe) {
    && p.pos <= p.limit <= |p.stream|
    && p.flushed + p.pending + p.buffer == p.stream[..p.pos]
    && p.written == |p.flushed| + |p.pending|
  }

  ghost predicate Bounded(p: Pipe) {
    && |p.buffer| <= BUFFER_CAPACITY
    && |p.buffer| + |p.pending| < BACKLOG_LIMIT + BUFFER_CAPACITY
  }

  /** Nothing is left to read, to write or to send. */
  ghost predicate Emptied(p: Pipe) {
    p.pos == |p.stream| && p.buffer == [] && p.pending == []
  }

  ghost predicate Control(s: State) {
    && s.setup.Sensible()
    && s.size >= -1
    && (!s.setup.tls ==> s.pipe.encrypted == 0)
    && (s.sourceEof ==> s.pipe.limit == |s.pipe.stream|)
    && (s.started && !s.setup.sequentialSource ==> s.sourceEof)
    && (s.finished ==> !s.sourceOpen && !s.sinkOpen)
  }

  /** The timer runs until the job finishes; a job that finishes while it is being started
      leaves its timer running, but then the sink has nothing queued. */
  ghost predicate Ticking(s: State) {
    && (s.started && !s.finished ==> s.timer)
    && (s.finished && s.timer ==> s.pipe.pending == [])
  }

  /** The end-of-stream mark and the verdict agree with what was delivered. */
  ghost predicate Truthful(s: State) {
    && (s.sawEof && s.size < 0 ==> s.sourceEof && Emptied(s.pipe))
    && (s.sawEof && !s.setup.tls ==> s.finished)
    && (s.finished && s.error.None? ==> s.pipe.buffer == [] && (s.size < 0 || s.pipe.written == s.size))
  }

  ghost predicate Inv(s: State) {
    Faithful(s.pipe) && Bounded(s.pipe) && Control(s) && Truthful(s)
  }

  // ---- the anatomy of a slot -------------------------------------------------------

  /** What a polling slot notes before it polls. */
  function Before(s: State, e: Event): State
    requires Enabled(s, e) && e.Polls()
  {
    s.(sourceEof := s.sourceEof || (e.SourceClosed? && !s.finished),
       queuedPolls := if e.RunQueuedPoll? then s.queuedPolls - 1 else s.queuedPolls,
       progress := if e.Tick? then s.progress + [s.pipe.written - s.pipe.Backlog()] else s.progress)
  }

  /** A timeout of a job into a file only reports. */
  predicate OnlyReports(s: State, e: Event) {
    e.Tick? && !s.setup.sequentialSink
  }

  predicate Ends(e: Event) {
    e.SinkClosing? || e.Disconnected?
  }

  /** What happens to the bytes between two slots. */
  function Outside(s: State, e: Event): Pipe
    requires Enabled(s, e)
  {
    match e
    case Arrive(n) => s.pipe.(limit := s.pipe.limit + n)
    case Drain(n, enc) => AfterDrain(s.pipe, n, enc)
    case DrainEncrypted(n) => s.pipe.(encrypted := s.pipe.encrypted - n)
    case _ => s.pipe
  }

  /** Every event notes something and polls, or finishes, or moves bytes outside the job. */
  lemma StepCases(s: State, e: Event)
    requires Enabled(s, e)
    ensures e.Polls() ==> CanAnswer(Before(s, e), e.a)
    ensures e.Polls() ==> Step(s, e) == if OnlyReports(s, e) then Before(s, e) else Poll(Before(s, e), e.a)
    ensures Ends(e) ==> Step(s, e) == Finish(s)
    ensures !e.Polls() && !Ends(e) ==> Step(s, e) == s.(pipe := Outside(s, e))
  {
    hide WantsRead, WritePhase, ReadPhase, ReadSucceeds, Finish, AfterDrain;
  }

  lemma BeforeFrame(s: State, e: Event)
    requires Enabled(s, e) && e.Polls()
    ensures var t := Before(s, e);
      && t.pipe == s.pipe && t.setup == s.setup && t.size == s.size && t.started == s.started
      && t.finished == s.finished && t.timer == s.timer && t.sawEof == s.sawEof
      && t.error == s.error && t.results == s.results
      && t.sourceOpen == s.sourceOpen && t.sinkOpen == s.sinkOpen
      && (s.sourceEof ==> t.sourceEof)
  {
    hide CanAnswer;
  }

  // ---- the bytes -------------------------------------------------------------------

  lemma ReadKeepsPipe(p: Pipe, n: nat)
    requires Faithful(p) && Bounded(p) && WantsRead(p)
    requires n <= BUFFER_CAPACITY - |p.buffer| && n <= p.Available()
    ensures Faithful(AfterRead(p, n)) && Bounded(AfterRead(p, n))
  {
    var chunk := p.stream[p.pos..p.pos + n];
    assert p.stream[..p.pos] + chunk == p.stream[..p.pos + n];
    assert p.flushed + p.pending + (p.buffer + chunk) == p.flushed + p.pending + p.buffer + chunk;
  }

  lemma WriteKeepsPipe(p: Pipe, w: WriteAnswer)
    requires Faithful(p) && Bounded(p)
    requires w.Writes? && w.n <= |p.buffer| && w.leaving <= |p.pending| + w.n
    ensures Faithful(AfterWrite(p, w)) && Bounded(AfterWrite(p, w))
  {
    var queue := p.pending + p.buffer[..w.n];
    var q := AfterWrite(p, w);
    assert queue[..w.leaving] + queue[w.leaving..] == queue;
    assert p.buffer[..w.n] + p.buffer[w.n..] == p.buffer;
    assert q.flushed + q.pending + q.buffer == p.flushed + queue + q.buffer
        == p.flushed + p.pending + p.buffer;
  }

  lemma DrainKeepsPipe(p: Pipe, n: nat, enc: nat)
    requires Faithful(p) && Bounded(p) && n <= |p.pending|
    ensures Faithful(AfterDrain(p, n, enc)) && Bounded(AfterDrain(p, n, enc))
  {
    assert p.pending[..n] + p.pending[n..] == p.pending;
    var q := AfterDrain(p, n, enc);
    assert q.flushed + q.pending + q.buffer == p.flushed + p.pending + p.buffer;
  }

  // ---- one slot at a time ----------------------------------------------------------

  /** What no poll touches, and when it stops the timer. */
  ghost predicate Frame(s: State, t: State) {
    && t.setup == s.setup && t.size == s.size && t.started == s.started && t.sourceEof == s.sourceEof
    && t.pipe.stream == s.pipe.stream && t.pipe.limit == s.pipe.limit
    && (s.finished ==> t == s)
    && t.timer == (s.timer && (t.finished ==> s.finished))
    && (t.finished && !s.finished ==> !t.sourceOpen && !t.sinkOpen)
    && (!t.finished ==> t.sourceOpen == s.sourceOpen && t.sinkOpen == s.sinkOpen)
  }

  lemma SettleKeepsPipe(s: State, hangsUp: bool)
    requires !s.finished
    ensures Settle(s, hangsUp).pipe == s.pipe && Frame(s, Settle(s, hangsUp))
  {
    hide AtEof, WantsRepoll, Verdict;
  }

  lemma SettleKeepsControl(s: State, hangsUp: bool)
    requires Control(s) && !s.finished
    ensures Control(Settle(s, hangsUp))
  {
    SettleKeepsPipe(s, hangsUp);
    hide Settle;
  }

  lemma SettleKeepsTruth(s: State, hangsUp: bool)
    requires Control(s) && Truthful(s) && !s.finished && s.pipe.written >= 0
    ensures Truthful(Settle(s, hangsUp))
    ensures Settle(s, hangsUp).finished ==> s.pipe.pending == []
  {
  }

  lemma SettleKeepsInv(s: State, hangsUp: bool)
    requires Inv(s) && !s.finished
    ensures Inv(Settle(s, hangsUp))
    ensures Settle(s, hangsUp).finished ==> s.pipe.pending == []
  {
    hide Bounded, Control, Truthful, Settle;
    SettleKeepsPipe(s, hangsUp);
    SettleKeepsControl(s, hangsUp);
    SettleKeepsTruth(s, hangsUp);
  }

  lemma FinishKeepsInv(s: State)
    requires Inv(s)
    ensures Inv(Finish(s))
  {
  }

  /** Once a job without a known size has seen the end, no poll finds anything to move. */
  lemma PhaseKeepsInv(s: State, p: Pipe)
    requires Inv(s) && !s.finished && Faithful(p) && Bounded(p)
    requires p.stream == s.pipe.stream && p.limit == s.pipe.limit && s.pipe.pos <= p.pos
    requires !s.setup.tls ==> p.encrypted == 0
    requires |s.pipe.buffer| == 0 && p.pos == s.pipe.pos ==> p.buffer == []
    requires |s.pipe.buffer| == |s.pipe.pending| == 0 && p.pos == s.pipe.pos ==> p.pending == []
    ensures Inv(s.(pipe := p))
  {
  }

  lemma FailKeepsInv(s: State, f: Failure)
    requires Inv(s) && !s.finished
    ensures Inv(Fail(s, f)) && !Fail(s, f).finished
  {
  }

  lemma ReadPhaseKeepsInv(s: State, a: Answers)
    requires Inv(s) && !s.finished && CanAnswer(s, a) && ReadSucceeds(s.pipe, a)
    ensures Inv(ReadPhase(s, a))
  {
    if WantsRead(s.pipe) { ReadKeepsPipe(s.pipe, a.read.n); }
    PhaseKeepsInv(s, ReadPhase(s, a).pipe);
  }

  lemma WritePhaseKeepsInv(s: State, a: Answers)
    requires Inv(s) && !s.finished
    requires a.write.Writes? ==> a.write.n <= |s.pipe.buffer| && a.write.leaving <= |s.pipe.pending| + a.write.n
    requires a.write.Writes? && !s.setup.tls ==> a.write.encrypted == 0
    ensures Inv(WritePhase(s, a))
    ensures WritePhase(s, a).finished ==> WritePhase(s, a).pipe.pending == []
  {
    hide Settle, Faithful, Bounded, Truthful, Fail;
    if s.pipe.buffer == [] {
      SettleKeepsInv(s, a.hangsUp);
      SettleKeepsPipe(s, a.hangsUp);
    } else if a.write.WriteFails? {
      FailKeepsInv(s, WriteError);
    } else {
      WriteKeepsPipe(s.pipe, a.write);
      var s1 := s.(pipe := AfterWrite(s.pipe, a.write));
      PhaseKeepsInv(s, s1.pipe);
      SettleKeepsInv(s1, a.hangsUp);
      SettleKeepsPipe(s1, a.hangsUp);
    }
  }

  lemma PollKeepsInv(s: State, a: Answers)
    requires Inv(s) && CanAnswer(s, a)
    ensures Inv(Poll(s, a))
    ensures Poll(s, a).finished && !s.finished ==> Poll(s, a).pipe.pending == []
  {
    hide Inv, WritePhase;
    if !s.finished {
      if ReadSucceeds(s.pipe, a) {
        ReadPhaseKeepsInv(s, a);
        WritePhaseKeepsInv(ReadPhase(s, a), a);
      } else {
        FailKeepsInv(s, ReadError);
      }
    }
  }

  lemma BeforeKeepsInv(s: State, e: Event)
    requires Inv(s) && Enabled(s, e) && e.Polls()
    ensures Inv(Before(s, e))
  {
    hide Faithful, Bounded, CanAnswer;
  }

  lemma OutsideKeepsInv(s: State, e: Event)
    requires Inv(s) && Enabled(s, e) && !e.Polls() && !Ends(e)
    ensures Inv(s.(pipe := Outside(s, e)))
  {
    if e.Drain? { DrainKeepsPipe(s.pipe, e.n, e.encrypted); }
  }

  lemma StepKeepsInv(s: State, e: Event)
    requires Inv(s) && Enabled(s, e)
    ensures Inv(Step(s, e))
  {
    hide Inv, Enabled, CanAnswer, Step, Poll, Finish, Before, Outside;
    StepCases(s, e);
    if e.Polls() {
      BeforeKeepsInv(s, e);
      PollKeepsInv(Before(s, e), e.a);
    } else if Ends(e) {
      FinishKeepsInv(s);
    } else {
      OutsideKeepsInv(s, e);
    }
  }

  lemma WritePhaseFrame(s: State, a: Answers)
    requires !s.finished
    requires a.write.Writes? ==> a.write.n <= |s.pipe.buffer| && a.write.leaving <= |s.pipe.pending| + a.write.n
    ensures Frame(s, WritePhase(s, a))
  {
    hide Settle;
    SettleKeepsPipe(s, a.hangsUp);
    if a.write.Writes? { SettleKeepsPipe(s.(pipe := AfterWrite(s.pipe, a.write)), a.hangsUp); }
  }

  lemma PollFrame(s: State, a: Answers)
    requires CanAnswer(s, a)
    ensures Frame(s, Poll(s, a))
  {
    hide WritePhase;
    if !s.finished && ReadSucceeds(s.pipe, a) { WritePhaseFrame(ReadPhase(s, a), a); }
  }

  /** What no slot changes, and what stops the timer: only the slot that finishes the job. */
  ghost predicate Keeps(s: State, t: State) {
    && t.setup == s.setup && t.size == s.size && t.started == s.started
    && (s.sourceEof ==> t.sourceEof) && (s.finished ==> t.finished)
    && t.timer == (s.timer && (t.finished ==> s.finished))
  }

  lemma FrameKeeps(s: State, t: State)
    requires Frame(s, t)
    ensures Keeps(s, t)
  {
  }

  lemma FinishFrame(s: State)
    ensures Keeps(s, Finish(s))
  {
  }

  lemma StepFrame(s: State, e: Event)
    requires Enabled(s, e)
    ensures Keeps(s, Step(s, e))
  {
    hide Enabled, CanAnswer, Step, Poll, Finish, Before, Outside, Frame;
    StepCases(s, e);
    if e.Polls() {
      BeforeFrame(s, e);
      PollFrame(Before(s, e), e.a);
      FrameKeeps(Before(s, e), Poll(Before(s, e), e.a));
    } else if Ends(e) {
      FinishFrame(s);
    }
  }

  lemma StepKeepsTicking(s: State, e: Event)
    requires Ticking(s) && Enabled(s, e)
    ensures Ticking(Step(s, e))
  {
    hide CanAnswer, Step, Poll, Verdict, Before, AfterDrain;
    StepFrame(s, e);
    StepCases(s, e);
    if e.Polls() {
      BeforeFrame(s, e);
      PollFrame(Before(s, e), e.a);
    }
  }

  lemma TimerKeepsInv(s: State)
    requires Inv(s)
    ensures Inv(s.(timer := true))
  {
  }

  lemma ArmedIsInv(first: State)
    requires Fresh(first)
    ensures Inv(Armed(first))
  {
    assert first.pipe.stream[..0] == [];
  }

  lemma StartKeepsInv(first: State, a: Answers)
    requires Fresh(first) && CanAnswer(first, a)
    ensures Inv(DoStart(first, a)) && Ticking(DoStart(first, a))
  {
    var armed := Armed(first);
    ArmedIsInv(first);
    PollKeepsInv(armed, a);
    hide Inv, Poll;
    TimerKeepsInv(Poll(armed, a));
  }
}
