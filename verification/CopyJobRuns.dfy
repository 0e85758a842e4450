/**
 Statements about whole runs of a copy job, under any interleaving of its slots, with
 short reads, short writes and failing devices.
 */
module CopyJobRuns {
  import opened Basics
  import opened CopyJobSpec
  import opened CopyJobSafety

  lemma {:induction false} RunKeepsInv(states: seq<State>, events: seq<Event>, first: State, a: Answers, i: nat)
    requires IsRun(states, events, first, a) && i < |states|
    ensures Inv(states[i]) && Ticking(states[i])
    ensures states[i].setup == first.setup && states[i].pipe.stream == first.pipe.stream
  {
    hide Inv, Ticking, Step, DoStart;
    if i == 0 {
      StartKeepsInv(first, a);
      StartKeepsSource(first, a);
    } else {
      RunKeepsInv(states, events, first, a, i - 1);
      assert Enabled(states[i - 1], events[i - 1]);
      StepKeepsInv(states[i - 1], events[i - 1]);
      StepKeepsTicking(states[i - 1], events[i - 1]);
      StepDelivers(states[i - 1], events[i - 1]);
      StepFrame(states[i - 1], events[i - 1]);
    }
  }

  lemma StartedTimer(first: State, a: Answers)
    requires Fresh(first) && CanAnswer(first, a)
    ensures DoStart(first, a).timer
  {
    hide Poll;
  }

  /** In every run the timer is on exactly while the job has not finished, unless the poll in
      doStart finished it: then the timer is never stopped. */
  lemma {:induction false} TimerOutlivesJob(states: seq<State>, events: seq<Event>, first: State, a: Answers, i: nat)
    requires IsRun(states, events, first, a) && i < |states|
    ensures states[i].timer <==> states[0].finished || !states[i].finished
    ensures states[0].finished ==> states[i].finished
  {
    hide Fresh, CanAnswer, Step, DoStart;
    if i == 0 {
      StartedTimer(first, a);
    } else {
      TimerOutlivesJob(states, events, first, a, i - 1);
      assert Enabled(states[i - 1], events[i - 1]);
      StepFrame(states[i - 1], events[i - 1]);
    }
  }

  lemma StartRun(first: State, a: Answers)
    requires Fresh(first) && CanAnswer(first, a)
    ensures IsRun([DoStart(first, a)], [], first, a)
  {
  }

  lemma ExtendRun(states: seq<State>, events: seq<Event>, first: State, a: Answers, e: Event)
    requires IsRun(states, events, first, a) && Enabled(states[|states| - 1], e)
    ensures IsRun(states + [Step(states[|states| - 1], e)], events + [e], first, a)
  {
    hide Fresh, CanAnswer, Enabled, Step, DoStart;
  }

  // ---- fidelity, conservation, back-pressure -----------------------------------------

  /** Whatever has been sent stays sent, whatever was accepted stays accepted, in order. */
  ghost predicate Extends(p: Pipe, q: Pipe) {
    && q.stream == p.stream && p.pos <= q.pos && p.limit <= q.limit
    && p.flushed <= q.flushed && p.Delivered() <= q.Delivered()
  }

  lemma ReadPhaseExtends(s: State, a: Answers)
    requires CanAnswer(s, a) && ReadSucceeds(s.pipe, a)
    ensures Extends(s.pipe, ReadPhase(s, a).pipe)
  {
  }

  lemma AfterWriteExtends(p: Pipe, w: WriteAnswer)
    requires w.Writes? && w.n <= |p.buffer| && w.leaving <= |p.pending| + w.n
    ensures Extends(p, AfterWrite(p, w))
    ensures AfterWrite(p, w).Delivered() == p.Delivered() + p.buffer[..w.n]
  {
    var queue := p.pending + p.buffer[..w.n];
    assert queue[..w.leaving] + queue[w.leaving..] == queue;
    assert AfterWrite(p, w).Delivered() == p.flushed + queue == p.Delivered() + p.buffer[..w.n];
  }

  lemma WritePhaseExtends(s: State, a: Answers)
    requires !s.finished
    requires a.write.Writes? ==> a.write.n <= |s.pipe.buffer| && a.write.leaving <= |s.pipe.pending| + a.write.n
    ensures Extends(s.pipe, WritePhase(s, a).pipe)
  {
    hide Settle;
    SettleKeepsPipe(s, a.hangsUp);
    if a.write.Writes? {
      AfterWriteExtends(s.pipe, a.write);
      SettleKeepsPipe(s.(pipe := AfterWrite(s.pipe, a.write)), a.hangsUp);
    }
  }

  lemma PollExtends(s: State, a: Answers)
    requires CanAnswer(s, a)
    ensures Extends(s.pipe, Poll(s, a).pipe)
  {
    hide WritePhase;
    if !s.finished && ReadSucceeds(s.pipe, a) {
      ReadPhaseExtends(s, a);
      WritePhaseExtends(ReadPhase(s, a), a);
    }
  }

  lemma OutsideExtends(s: State, e: Event)
    requires Enabled(s, e) && !e.Polls()
    ensures Extends(s.pipe, Outside(s, e))
  {
    if e.Drain? { DrainExtends(s.pipe, e.n, e.encrypted); }
  }

  lemma FinishExtends(s: State)
    ensures Extends(s.pipe, Finish(s).pipe)
  {
  }

  lemma ItselfExtended(p: Pipe)
    ensures Extends(p, p)
  {
  }

  lemma StepDelivers(s: State, e: Event)
    requires Enabled(s, e)
    ensures Extends(s.pipe, Step(s, e).pipe)
  {
    hide Enabled, CanAnswer, Step, Before, Outside, Poll, Finish, Extends;
    StepCases(s, e);
    if e.Polls() {
      BeforeFrame(s, e);
      PollExtends(Before(s, e), e.a);
      ItselfExtended(s.pipe);
    } else if Ends(e) {
      FinishExtends(s);
    } else {
      OutsideExtends(s, e);
    }
  }

  lemma DrainExtends(p: Pipe, n: nat, enc: nat)
    requires n <= |p.pending|
    ensures Extends(p, AfterDrain(p, n, enc)) && AfterDrain(p, n, enc).Delivered() == p.Delivered()
  {
    assert p.pending[..n] + p.pending[n..] == p.pending;
  }

  lemma StartKeepsSource(first: State, a: Answers)
    requires Fresh(first) && CanAnswer(first, a)
    ensures DoStart(first, a).setup == first.setup
    ensures DoStart(first, a).pipe.stream == first.pipe.stream
  {
    PollExtends(Armed(first), a);
    PollFrame(Armed(first), a);
    hide Poll;
  }

  /** In every state of every run the sink's bytes followed by the buffered bytes are exactly
      the bytes read so far; none is lost, doubled or reordered, and the backlog is bounded. */
  lemma StreamFidelity(states: seq<State>, events: seq<Event>, first: State, a: Answers, i: nat)
    requires IsRun(states, events, first, a) && i < |states|
    ensures var p := states[i].pipe;
      && p.pos <= |first.pipe.stream|
      && p.Delivered() + p.buffer == first.pipe.stream[..p.pos]
      && p.written == |p.Delivered()|
      && p.pos == |p.flushed| + |p.pending| + |p.buffer|
      && |p.buffer| + |p.pending| < BACKLOG_LIMIT + BUFFER_CAPACITY
  {
    RunKeepsInv(states, events, first, a, i);
    var p := states[i].pipe;
    assert |p.flushed + p.pending + p.buffer| == |p.stream[..p.pos]|;
  }

  /** A job into a socket that sends nothing: queued bytes, and more to read. */
  ghost predicate Filling(s: State, queued: nat, available: nat) {
    && s.setup.sequentialSink && !s.setup.tls && !s.finished
    && s.pipe.buffer == [] && |s.pipe.pending| == queued && s.pipe.encrypted == 0
    && s.pipe.pos + available <= s.pipe.limit <= |s.pipe.stream|
  }

  /** The source gives n bytes and the socket queues them all. */
  function Queueing(n: nat): Answers {
    Answers(Reads(n), Writes(n, 0, 0), false)
  }

  lemma FillPoll(s: State, queued: nat, available: nat, n: nat)
    requires Filling(s, queued, available) && queued < BACKLOG_LIMIT && 0 < n <= BUFFER_CAPACITY && n <= available
    ensures CanAnswer(s, Queueing(n)) && Filling(Poll(s, Queueing(n)), queued + n, available - n)
  {
    hide Settle;
    var q := AfterWrite(AfterRead(s.pipe, n), Writes(n, 0, 0));
    assert q.buffer == [] && |q.pending| == queued + n;
    SettleKeepsPipe(s.(pipe := q), false);
    BacklogGoesOn(s.(pipe := q));
  }

  lemma BacklogGoesOn(s: State)
    requires !s.finished && s.pipe.Backlog() > 0
    ensures !Settle(s, false).finished
  {
  }

  lemma FillStep(s: State, queued: nat, available: nat, n: nat)
    requires Filling(s, queued, available) && s.timer
    requires queued < BACKLOG_LIMIT && 0 < n <= BUFFER_CAPACITY && n <= available
    ensures Enabled(s, Tick(Queueing(n)))
    ensures var t := Step(s, Tick(Queueing(n))); Filling(t, queued + n, available - n) && t.timer
  {
    var e := Tick(Queueing(n));
    FillPoll(s, queued, available, n);
    StepCases(s, e);
    FillPoll(Before(s, e), queued, available, n);
    StepFrame(s, e);
    hide Poll, Step;
  }

  lemma OverfillStep(s: State)
    requires Filling(s, BACKLOG_LIMIT - 1, BUFFER_CAPACITY) && s.timer
    ensures var e := Tick(Answers(Reads(BUFFER_CAPACITY), WriteFails, false));
      && Enabled(s, e)
      && |Step(s, e).pipe.buffer| + |Step(s, e).pipe.pending| == BACKLOG_LIMIT + BUFFER_CAPACITY - 1
  {
    var e := Tick(Answers(Reads(BUFFER_CAPACITY), WriteFails, false));
    StepCases(s, e);
    FailedPoll(Before(s, e), e.a);
    ReadPhaseBuffers(Before(s, e), e.a);
    hide Poll, Step;
  }

  /** The backlog bound cannot be lowered: every unencrypted job into a socket that sends nothing
      comes one byte below it, if there is enough to read. */
  lemma BacklogBoundIsTight(first: State)
    requires Fresh(first) && first.setup.sequentialSink && !first.setup.tls
    requires first.pipe.limit >= BACKLOG_LIMIT + BUFFER_CAPACITY - 1
    ensures exists states: seq<State>, events: seq<Event>, a: Answers ::
      && IsRun(states, events, first, a)
      && var p := states[|states| - 1].pipe; |p.buffer| + |p.pending| == BACKLOG_LIMIT + BUFFER_CAPACITY - 1
  {
    hide IsRun, Fresh, CanAnswer, Enabled, Step, DoStart, Filling;
    var c := BUFFER_CAPACITY;
    FillStart(first);
    var a := Queueing(c);
    var states, events := [DoStart(first, a)], [];
    StartRun(first, a);
    states, events := FillRun(states, events, first, a, c, 4 * c - 1, c);
    states, events := FillRun(states, events, first, a, 2 * c, 3 * c - 1, c);
    states, events := FillRun(states, events, first, a, 3 * c, 2 * c - 1, c - 1);
    var s, e := states[|states| - 1], Tick(Answers(Reads(c), WriteFails, false));
    OverfillStep(s);
    ExtendRun(states, events, first, a, e);
    states, events := states + [Step(s, e)], events + [e];
    assert states[|states| - 1] == Step(s, e);
  }

  lemma FillStart(first: State)
    requires Fresh(first) && first.setup.sequentialSink && !first.setup.tls
    requires first.pipe.limit >= BACKLOG_LIMIT + BUFFER_CAPACITY - 1
    ensures var a := Queueing(BUFFER_CAPACITY);
      && CanAnswer(first, a)
      && Filling(DoStart(first, a), BUFFER_CAPACITY, BACKLOG_LIMIT - 1) && DoStart(first, a).timer
  {
    FillPoll(Armed(first), 0, BACKLOG_LIMIT + BUFFER_CAPACITY - 1, BUFFER_CAPACITY);
    hide Poll;
  }

  lemma FillRun(states: seq<State>, events: seq<Event>, first: State, a: Answers, queued: nat, available: nat, n: nat)
    returns (longer: seq<State>, more: seq<Event>)
    requires IsRun(states, events, first, a)
    requires var s := states[|states| - 1]; Filling(s, queued, available) && s.timer
    requires queued < BACKLOG_LIMIT && 0 < n <= BUFFER_CAPACITY && n <= available
    ensures IsRun(longer, more, first, a) && longer != []
    ensures var s := longer[|longer| - 1]; Filling(s, queued + n, available - n) && s.timer
  {
    hide Fresh, CanAnswer, Enabled, Step, DoStart, Filling;
    var s := states[|states| - 1];
    FillStep(s, queued, available, n);
    ExtendRun(states, events, first, a, Tick(Queueing(n)));
    longer, more := states + [Step(s, Tick(Queueing(n)))], events + [Tick(Queueing(n))];
  }

  // ---- the end of a job ----------------------------------------------------------------

  /** What finishing ends with: the first of a wrong size and of bytes that were read but not written,
      if there is one, otherwise the error there was before, if any. */
  lemma FinishVerdict(s: State)
    requires !s.finished
    ensures var e := Finish(s).error;
      && (s.size >= 0 && s.pipe.written < s.size ==> e == Some(EarlyEndOfInput))
      && (s.size >= 0 && s.pipe.written > s.size ==> e == Some(TooMuchInput))
      && (s.pipe.buffer != [] && (s.size < 0 || s.pipe.written == s.size) ==> e == Some(EarlyEndOfOutput))
      && (s.pipe.buffer == [] && (s.size < 0 || s.pipe.written == s.size) ==> e == s.error)
      && (e.None? <==> s.error.None? && s.pipe.buffer == [] && (s.size < 0 || s.pipe.written == s.size))
  {
  }

  /** The size a job expects: the given one, else the size of the source file, else unknown. */
  function ExpectedSize(first: State): int {
    if first.size >= 0 || first.setup.sequentialSource then first.size else |first.pipe.stream|
  }

  lemma {:induction false} RunKeepsSize(states: seq<State>, events: seq<Event>, first: State, a: Answers, i: nat)
    requires IsRun(states, events, first, a) && i < |states|
    ensures states[i].size == ExpectedSize(first)
  {
    if i == 0 {
      PollFrame(Armed(first), a);
      hide Poll;
    } else {
      RunKeepsSize(states, events, first, a, i - 1);
      assert Enabled(states[i - 1], events[i - 1]);
      hide Step;
      StepFrame(states[i - 1], events[i - 1]);
    }
  }

  /** Success with a known size: the sink got exactly that many first bytes of the source. */
  lemma KnownSizeSuccess(states: seq<State>, events: seq<Event>, first: State, a: Answers, i: nat)
    requires IsRun(states, events, first, a) && i < |states|
    requires states[i].finished && states[i].error.None? && ExpectedSize(first) >= 0
    ensures ExpectedSize(first) <= |first.pipe.stream|
    ensures states[i].pipe.Delivered() == first.pipe.stream[..ExpectedSize(first)]
  {
    RunKeepsInv(states, events, first, a, i);
    RunKeepsSize(states, events, first, a, i);
    var p := states[i].pipe;
    assert p.flushed + p.pending == p.stream[..p.pos];
    assert |p.stream[..p.pos]| == p.pos;
  }

  /** Success of unknown size reached through the end of the source: the sink got, and sent,
      everything the source delivered. */
  lemma UnknownSizeSuccess(states: seq<State>, events: seq<Event>, first: State, a: Answers, i: nat)
    requires IsRun(states, events, first, a) && i < |states|
    requires states[i].finished && states[i].sawEof && ExpectedSize(first) < 0
    ensures states[i].pipe.flushed == first.pipe.stream
  {
    RunKeepsSize(states, events, first, a, i);
    RunKeepsInv(states, events, first, a, i);
    var p := states[i].pipe;
    assert p.flushed + p.pending + p.buffer == p.flushed;
    assert p.stream[..p.pos] == p.stream;
  }

  /** Without a known size a sink that closes early is not noticed: the job then ends without
      error, and it delivered the whole source exactly when the source had nothing left,
      neither available nor still to come. */
  lemma UnknownSizeEarlyClose(states: seq<State>, events: seq<Event>, first: State, a: Answers, i: nat)
    requires IsRun(states, events, first, a) && i < |states|
    requires var s := states[i]; !s.finished && s.error.None? && s.size < 0 && s.pipe.buffer == []
    ensures Finish(states[i]).error.None?
    ensures Finish(states[i]).pipe.Delivered() == first.pipe.stream <==>
      states[i].pipe.Available() == 0 && states[i].pipe.limit == |first.pipe.stream|
  {
    RunKeepsInv(states, events, first, a, i);
    var p := states[i].pipe;
    assert p.flushed + p.pending == p.stream[..p.pos];
    assert |p.stream[..p.pos]| == p.pos;
    if p.pos == |p.stream| { assert p.stream[..p.pos] == p.stream; }
  }

  /** A concrete run of that kind: one byte is still to come when the sink closes. */
  lemma EarlyCloseLosesData(byte: Byte)
    ensures exists states: seq<State>, events: seq<Event>, first: State, a: Answers ::
      && IsRun(states, events, first, a) && first.pipe.stream == [byte]
      && var last := states[|states| - 1]; last.finished && last.error.None? && last.pipe.Delivered() == []
  {
    var pipe := Pipe([byte], 0, 0, [], 0, [], [], 0);
    var first := State(Setup(true, false, true, false), pipe,
                       true, true, -1, false, false, false, false, 0, false, None, [], []);
    var a := Answers(Reads(0), Writes(0, 0, 0), false);
    var armed := Armed(first);
    assert AfterRead(pipe, 0) == pipe;
    assert ReadPhase(armed, a) == armed;
    assert WritePhase(armed, a) == armed;
    var started := armed.(timer := true);
    assert DoStart(first, a) == started;
    var events := [SinkClosing];
    var states := [started, Finish(started)];
    assert Enabled(states[0], events[0]);
    assert Step(states[0], events[0]) == states[1];
    assert IsRun(states, events, first, a);
    assert states[|states| - 1].pipe.Delivered() == [];
  }

  // ---- finishing happens once ----------------------------------------------------------

  /** Nothing a poll or a signal does after the end changes the job. */
  ghost predicate SameEnd(s: State, t: State) {
    && t.finished && t.error == s.error && t.results == s.results
    && t.pipe.pos == s.pipe.pos && t.pipe.buffer == s.pipe.buffer && t.pipe.written == s.pipe.written
    && t.pipe.Delivered() == s.pipe.Delivered()
    && !t.sourceOpen && !t.sinkOpen
  }

  lemma StepAfterEnd(s: State, e: Event)
    requires Inv(s) && Enabled(s, e) && s.finished
    ensures SameEnd(s, Step(s, e))
  {
    if e.Drain? { DrainExtends(s.pipe, e.n, e.encrypted); }
    hide WritePhase, ReadPhase, AfterDrain;
  }

  /** finish() has an effect at most once: in every run, all states after the first finished
      one agree with it on verdict, results, buffer, read position and delivered bytes. */
  lemma {:induction false} FinishedIsFinal(states: seq<State>, events: seq<Event>, first: State, a: Answers, i: nat, j: nat)
    requires IsRun(states, events, first, a) && i <= j < |states| && states[i].finished
    ensures SameEnd(states[i], states[j])
    decreases j - i
  {
    RunKeepsInv(states, events, first, a, i);
    if i < j {
      hide Inv, Step;
      FinishedIsFinal(states, events, first, a, i, j - 1);
      RunKeepsInv(states, events, first, a, j - 1);
      assert Enabled(states[j - 1], events[j - 1]);
      StepAfterEnd(states[j - 1], events[j - 1]);
    }
  }

  predicate Works(a: Answers) {
    a.read.Reads? && a.write.Writes?
  }

  /** How much is buffered when the job comes to write. */
  function Buffered(p: Pipe, a: Answers): nat {
    |p.buffer| + if WantsRead(p) && a.read.Reads? then a.read.n else 0
  }

  /** An unfinished job wants to read and cannot, or has something to write and cannot. */
  predicate PollFails(s: State, a: Answers) {
    !s.finished &&
    ((|s.pipe.buffer| < 524288 && |s.pipe.pending| + s.pipe.encrypted < 2097152 && a.read.ReadFails?) || (Buffered(s.pipe, a) > 0 && a.write.WriteFails?))
  }

  predicate StepFails(s: State, e: Event) {
    e.Polls() && !OnlyReports(s, e) && PollFails(s, e.a)
  }

  /** The polls among the start and the first n slots of a run that met a failing device. */
  ghost function FailedPolls(states: seq<State>, events: seq<Event>, first: State, a: Answers, n: nat): nat
    requires n <= |events| && n <= |states|
  {
    if n == 0 then (if PollFails(Armed(first), a) then 1 else 0)
    else FailedPolls(states, events, first, a, n - 1) + (if StepFails(states[n - 1], events[n - 1]) then 1 else 0)
  }

  /** A step from s to t emits its error when it fails and when it finishes, and only then. */
  ghost predicate Emits(s: State, t: State, fails: bool) {
    && (s.finished ==> t.finished)
    && t.results == s.results + (if fails || (t.finished && !s.finished) then [t.error] else [])
    && (fails ==> !t.finished && !s.finished)
    && (!fails && t.finished == s.finished ==> t.error == s.error)
  }

  lemma SettleEmits(s: State, hangsUp: bool)
    requires !s.finished
    ensures Emits(s, Settle(s, hangsUp), false)
  {
    hide AtEof, WantsRepoll, Verdict;
  }

  lemma WritePhaseEmits(s: State, a: Answers)
    requires !s.finished
    requires a.write.Writes? ==> a.write.n <= |s.pipe.buffer| && a.write.leaving <= |s.pipe.pending| + a.write.n
    ensures Emits(s, WritePhase(s, a), s.pipe.buffer != [] && a.write.WriteFails?)
  {
    hide Settle, AfterWrite;
    SettleEmits(s, a.hangsUp);
    if a.write.Writes? { SettleEmits(s.(pipe := AfterWrite(s.pipe, a.write)), a.hangsUp); }
  }

  lemma ReadPhaseBuffers(s: State, a: Answers)
    requires CanAnswer(s, a) && ReadSucceeds(s.pipe, a)
    ensures |ReadPhase(s, a).pipe.buffer| == Buffered(s.pipe, a)
    ensures ReadPhase(s, a) == s.(pipe := ReadPhase(s, a).pipe)
    ensures ReadPhase(s, a).pipe.Delivered() == s.pipe.Delivered() && ReadPhase(s, a).pipe.stream == s.pipe.stream
    ensures a.write.Writes? ==>
      a.write.n <= |ReadPhase(s, a).pipe.buffer| && a.write.leaving <= |ReadPhase(s, a).pipe.pending| + a.write.n
  {
  }

  lemma PollEmits(s: State, a: Answers)
    requires CanAnswer(s, a)
    ensures Emits(s, Poll(s, a), PollFails(s, a))
  {
    hide WritePhase, ReadPhase, Buffered;
    if !s.finished && ReadSucceeds(s.pipe, a) {
      ReadPhaseBuffers(s, a);
      WritePhaseEmits(ReadPhase(s, a), a);
    }
  }

  lemma StepEmits(s: State, e: Event)
    requires Enabled(s, e)
    ensures Emits(s, Step(s, e), StepFails(s, e))
  {
    hide Enabled, CanAnswer, Step, Before, Outside, Poll, WantsRead, Buffered, Verdict;
    StepCases(s, e);
    if e.Polls() {
      BeforeFrame(s, e);
      PollEmits(Before(s, e), e.a);
    }
  }

  /** In every run there is one result for each poll that met a failing device, and one more
      once the job has finished. */
  lemma {:induction false} ResultCount(states: seq<State>, events: seq<Event>, first: State, a: Answers, i: nat)
    requires IsRun(states, events, first, a) && i < |states|
    ensures |states[i].results| ==
      FailedPolls(states, events, first, a, i) + (if states[i].finished then 1 else 0)
  {
    hide Step, Poll, Emits;
    if i == 0 {
      PollEmits(Armed(first), a);
      EmitsCount(Armed(first), Poll(Armed(first), a), PollFails(Armed(first), a));
    } else {
      ResultCount(states, events, first, a, i - 1);
      assert Enabled(states[i - 1], events[i - 1]);
      StepEmits(states[i - 1], events[i - 1]);
      EmitsCount(states[i - 1], states[i], StepFails(states[i - 1], events[i - 1]));
    }
  }

  lemma EmitsCount(s: State, t: State, fails: bool)
    requires Emits(s, t, fails)
    ensures |t.results| - |s.results| ==
      (if fails then 1 else 0) + (if t.finished then 1 else 0) - (if s.finished then 1 else 0)
  {
  }

  ghost predicate OneResult(s: State) {
    s.results == (if s.finished then [s.error] else []) && (!s.finished ==> s.error.None?)
  }

  lemma EmitsOne(s: State, t: State)
    requires Emits(s, t, false) && OneResult(s)
    ensures OneResult(t)
  {
  }

  lemma {:induction false} NoFailureOneResult(states: seq<State>, events: seq<Event>, first: State, a: Answers, i: nat)
    requires IsRun(states, events, first, a) && i < |states|
    requires FailedPolls(states, events, first, a, i) == 0
    ensures OneResult(states[i])
  {
    hide Step, Poll, Emits, PollFails, StepFails;
    if i == 0 {
      PollEmits(Armed(first), a);
      EmitsOne(Armed(first), Poll(Armed(first), a));
    } else {
      NoFailureOneResult(states, events, first, a, i - 1);
      assert Enabled(states[i - 1], events[i - 1]);
      StepEmits(states[i - 1], events[i - 1]);
      EmitsOne(states[i - 1], states[i]);
    }
  }

  lemma {:induction false} NoFailedPolls(states: seq<State>, events: seq<Event>, first: State, a: Answers, n: nat)
    requires n <= |events| && n <= |states|
    ensures FailedPolls(states, events, first, a, n) == 0 <==>
      !PollFails(Armed(first), a) && forall k :: 0 <= k < n ==> !StepFails(states[k], events[k])
  {
    hide PollFails, StepFails;
    if n > 0 { NoFailedPolls(states, events, first, a, n - 1); }
  }

  /** A run has emitted exactly the result of a finished job, and nothing before it finished, if
      and only if no poll met a failing device. */
  lemma OneResultPerRun(states: seq<State>, events: seq<Event>, first: State, a: Answers, i: nat)
    requires IsRun(states, events, first, a) && i < |states|
    ensures states[i].results == (if states[i].finished then [states[i].error] else []) <==>
      !PollFails(Armed(first), a) && forall k :: 0 <= k < i ==> !StepFails(states[k], events[k])
  {
    hide PollFails, StepFails, Fresh, Enabled, CanAnswer, Step, DoStart;
    ResultCount(states, events, first, a, i);
    NoFailedPolls(states, events, first, a, i);
    if FailedPolls(states, events, first, a, i) == 0 { NoFailureOneResult(states, events, first, a, i); }
  }

  // ---- what one poll does --------------------------------------------------------------------

  /** How many bytes a poll reads: what the source gives, if the array of 512 KiB has room and less
      than 2 MiB wait in the sink. */
  function ReadBy(p: Pipe, a: Answers): nat {
    if |p.buffer| < 524288 && |p.pending| + p.encrypted < 2097152 && a.read.Reads? then a.read.n else 0
  }

  function WrittenBy(p: Pipe, a: Answers): nat {
    if |p.buffer| + ReadBy(p, a) > 0 && a.write.Writes? then a.write.n else 0
  }

  /** A poll of an unfinished job that meets no failing device reads that many bytes, hands over that
      many, and then either queues another poll, because more can be read at once, or ends, because
      the source is empty and has ended, or the size was met, and nothing is left on the way; or it
      does neither.  An encrypted job that has come to its end only notes it, unless its socket hangs
      up at once. */
  lemma PollEffect(s: State, a: Answers)
    requires Inv(s) && CanAnswer(s, a) && !s.finished && !PollFails(s, a)
    ensures var t := Poll(s, a);
      var p, q := s.pipe, t.pipe;
      && q.pos == p.pos + ReadBy(p, a)
      && q.written == p.written + WrittenBy(p, a) == |q.Delivered()|
      && |q.buffer| == |p.buffer| + ReadBy(p, a) - WrittenBy(p, a)
      && var again := q.limit > q.pos && |q.buffer| != 524288 && |q.pending| + q.encrypted < 2097152;
         var end := q.limit == q.pos && q.buffer == [] && |q.pending| + q.encrypted == 0
                    && (s.sourceEof || s.size == q.written);
      && (t.queuedPolls == s.queuedPolls + if again then 1 else 0)
      && (t.finished <==> end && (s.setup.tls ==> a.hangsUp))
      && (t.sawEof <==> s.sawEof || end)
  {
    PollKeepsInv(s, a);
    var q := Moved(s, a);
    PollMoves(s, a);
    SettleEffect(s.(pipe := q), a.hangsUp);
    hide Poll, Moved, Settle, Bounded, Control, Truthful, PollFails, CanAnswer;
  }

  /** The bytes after a poll that meets no failing device. */
  ghost function Moved(s: State, a: Answers): Pipe
    requires CanAnswer(s, a) && !PollFails(s, a) && !s.finished
  {
    ReadPhaseBuffers(s, a);
    var p := ReadPhase(s, a).pipe;
    if p.buffer == [] then p else AfterWrite(p, a.write)
  }

  lemma PollMoves(s: State, a: Answers)
    requires Inv(s) && CanAnswer(s, a) && !s.finished && !PollFails(s, a)
    ensures var p, q := s.pipe, Moved(s, a);
      && Poll(s, a) == Settle(s.(pipe := q), a.hangsUp)
      && q.pos == p.pos + ReadBy(p, a)
      && q.written == p.written + WrittenBy(p, a)
      && |q.buffer| == |p.buffer| + ReadBy(p, a) - WrittenBy(p, a)
  {
    hide Settle, Inv, CanAnswer, AfterRead, AfterWrite;
    ReadPhaseBuffers(s, a);
    ReadMoves(s, a);
    var p := ReadPhase(s, a).pipe;
    if p.buffer != [] { WriteMoves(p, a.write); }
  }

  lemma ReadMoves(s: State, a: Answers)
    requires CanAnswer(s, a) && ReadSucceeds(s.pipe, a)
    ensures ReadPhase(s, a).pipe.pos == s.pipe.pos + ReadBy(s.pipe, a)
    ensures ReadPhase(s, a).pipe.written == s.pipe.written
    ensures |ReadPhase(s, a).pipe.buffer| == |s.pipe.buffer| + ReadBy(s.pipe, a)
  {
  }

  lemma WriteMoves(p: Pipe, w: WriteAnswer)
    requires w.Writes? && w.n <= |p.buffer| && w.leaving <= |p.pending| + w.n
    ensures var q := AfterWrite(p, w);
      q.pos == p.pos && q.written == p.written + w.n && |q.buffer| == |p.buffer| - w.n
  {
  }

  lemma SettleEffect(s: State, hangsUp: bool)
    requires !s.finished
    ensures var t, q := Settle(s, hangsUp), s.pipe;
      var again := q.limit > q.pos && |q.buffer| != 524288 && |q.pending| + q.encrypted < 2097152;
      var end := q.limit == q.pos && q.buffer == [] && |q.pending| + q.encrypted == 0
                 && (s.sourceEof || s.size == q.written);
      && t.pipe == q
      && (t.queuedPolls == s.queuedPolls + if again then 1 else 0)
      && (t.finished <==> end && (s.setup.tls ==> hangsUp))
      && (t.sawEof <==> s.sawEof || end)
  {
    hide Settle;
    SettleCases(s, hangsUp);
  }

  lemma SettleCases(s: State, hangsUp: bool)
    requires !s.finished
    ensures var t := Settle(s, hangsUp);
      && t.pipe == s.pipe
      && (t.queuedPolls == s.queuedPolls + if WantsRepoll(s.pipe) then 1 else 0)
      && (t.finished <==> AtEof(s) && (s.setup.tls ==> hangsUp))
      && (t.sawEof <==> s.sawEof || AtEof(s))
  {
    assert WantsRepoll(s.pipe) ==> !AtEof(s);
    hide Finish, AtEof, WantsRepoll;
    FinishFields(s.(sawEof := true));
  }

  lemma FinishFields(s: State)
    ensures var t := Finish(s); t.finished && t.pipe == s.pipe && t.queuedPolls == s.queuedPolls && t.sawEof == s.sawEof
  {
    hide Verdict;
  }

  /** A job that is fresh, except that its devices may be closed. */
  ghost predicate Unstarted(s: State) {
    Fresh(s.(sourceOpen := true, sinkOpen := true))
  }

  /** Starting emits exactly one result if a device is closed, or if the first poll meets a failing
      device or finishes the job, and none otherwise.  A closed device is named by the error, the
      source first; then no byte moves, and the job is neither started nor finished. */
  lemma StartResults(s: State, a: Answers)
    requires Unstarted(s) && CanAnswer(s, a)
    ensures var t := DoStart(s, a);
      && (|t.results| == 1 <==>
            !s.sourceOpen || !s.sinkOpen || PollFails(Armed(s), a) || Poll(Armed(s), a).finished)
      && (t.results == [] || t.results == [t.error])
      && (!s.sourceOpen ==> t.error == Some(SourceNotReadable) && t.results == [Some(SourceNotReadable)])
      && (s.sourceOpen && !s.sinkOpen ==> t.error == Some(SinkNotWritable) && t.results == [Some(SinkNotWritable)])
      && (if s.sourceOpen && s.sinkOpen then t.started && t.timer
          else t.pipe == s.pipe && !t.started && !t.timer && !t.finished && t.queuedPolls == 0)
  {
    PollEmits(Armed(s), a);
    PollFrame(Armed(s), a);
    hide Poll, PollFails, CanAnswer;
  }

  /** After a refused start no slot is ever called: that result stays the only one. */
  lemma RefusedStaysRefused(s: State, a: Answers, e: Event)
    requires Unstarted(s) && CanAnswer(s, a) && !(s.sourceOpen && s.sinkOpen)
    requires Enabled(DoStart(s, a), e)
    ensures !e.Polls() && !Ends(e)
  {
    StartResults(s, a);
    hide CanAnswer, DoStart;
  }

  lemma AnyAnswer(s: State)
    requires s.pipe.pos <= s.pipe.limit <= |s.pipe.stream|
    ensures CanAnswer(s, Answers(ReadFails, WriteFails, false))
  {
  }

  lemma FailingRead(s: State)
    requires !s.finished && WantsRead(s.pipe) && s.pipe.pos <= s.pipe.limit <= |s.pipe.stream|
    ensures CanAnswer(s, Answers(ReadFails, WriteFails, false))
    ensures Poll(s, Answers(ReadFails, WriteFails, false)) == Fail(s, ReadError)
  {
  }

  /** A job whose source fails twice: it emits two results and has not finished. */
  lemma SeveralResults()
    ensures exists states: seq<State>, events: seq<Event>, first: State, a: Answers ::
      && IsRun(states, events, first, a)
      && var last := states[|states| - 1]; !last.finished && last.results == [Some(ReadError), Some(ReadError)]
  {
    var first := State(Setup(true, false, true, false), Pipe([], 0, 0, [], 0, [], [], 0),
                       true, true, -1, false, false, false, false, 0, false, None, [], []);
    var a := Answers(ReadFails, WriteFails, false);
    FailingRead(Armed(first));
    var s0 := Fail(Armed(first), ReadError).(timer := true);
    FailingRead(Report(s0, 0));
    var s1 := Fail(Report(s0, 0), ReadError);
    var events := [Tick(a)];
    hide Poll, CanAnswer;
    assert CanAnswer(first, a) && CanAnswer(s0, a) by { AnyAnswer(first); AnyAnswer(s0); }
    assert DoStart(first, a) == s0;
    assert Enabled(s0, events[0]) && Step(s0, events[0]) == s1;
    assert IsRun([s0, s1], events, first, a);
    assert [s0, s1][|[s0, s1]| - 1] == s1;
  }

  /** A device error is reported by exactly one result, but does not finish the job: the timer
      goes on, and what was read before a failed write stays buffered. */
  lemma FailureDoesNotFinish(s: State, a: Answers)
    requires Inv(s) && CanAnswer(s, a) && PollFails(s, a)
    ensures var t := Poll(s, a);
      var e := if WantsRead(s.pipe) && a.read.ReadFails? then ReadError else WriteError;
      && !t.finished && t.timer == s.timer
      && t.error == Some(e) && t.results == s.results + [Some(e)]
      && t.pipe.Delivered() == s.pipe.Delivered()
      && t.pipe.Delivered() + t.pipe.buffer == s.pipe.stream[..t.pipe.pos]
  {
    hide Poll, Bounded, Control, Truthful, CanAnswer, WantsRead, Buffered, ReadPhase;
    FailedPoll(s, a);
    PollKeepsInv(s, a);
    if ReadSucceeds(s.pipe, a) { ReadPhaseBuffers(s, a); }
  }

  lemma FailedPoll(s: State, a: Answers)
    requires CanAnswer(s, a) && PollFails(s, a)
    ensures Poll(s, a) == if ReadSucceeds(s.pipe, a) then Fail(ReadPhase(s, a), WriteError) else Fail(s, ReadError)
  {
    if ReadSucceeds(s.pipe, a) { ReadPhaseBuffers(s, a); }
    hide Settle, AfterWrite;
  }

  /** An encrypted job does not finish in a poll, unless the socket reports at once that it has
      disconnected: the last encrypted bytes are waited for. */
  lemma EncryptedWaits(s: State, a: Answers)
    requires CanAnswer(s, a) && s.setup.tls && !a.hangsUp && !s.finished
    ensures !Poll(s, a).finished
  {
    hide WritePhase;
    if ReadSucceeds(s.pipe, a) { WritePhaseWaits(ReadPhase(s, a), a); }
  }

  lemma WritePhaseWaits(s: State, a: Answers)
    requires s.setup.tls && !a.hangsUp && !s.finished
    requires a.write.Writes? ==> a.write.n <= |s.pipe.buffer| && a.write.leaving <= |s.pipe.pending| + a.write.n
    ensures !WritePhase(s, a).finished
  {
    hide Settle, AfterWrite;
    SettleWaits(s);
    if a.write.Writes? { SettleWaits(s.(pipe := AfterWrite(s.pipe, a.write))); }
  }

  lemma SettleWaits(s: State)
    requires s.setup.tls && !s.finished
    ensures !Settle(s, false).finished
  {
  }

  // ---- killing a job -------------------------------------------------------------------

  /** A finished job reports no error only if nothing is buffered and the size is unknown or met. */
  ghost predicate Judged(s: State) {
    s.finished && s.error.None? ==> s.pipe.buffer == [] && (s.size < 0 || s.pipe.written == s.size)
  }

  /** What survives even if the source is closed before it delivered everything. */
  ghost predicate Sound(s: State) {
    Faithful(s.pipe) && Bounded(s.pipe) && Judged(s)
  }

  lemma WritePhaseIsSound(s: State, a: Answers)
    requires Sound(s) && !s.finished
    requires a.write.Writes? ==> a.write.n <= |s.pipe.buffer| && a.write.leaving <= |s.pipe.pending| + a.write.n
    ensures Sound(WritePhase(s, a))
  {
    hide Settle, Faithful, Bounded, Judged;
    SettleIsSound(s, a.hangsUp);
    if a.write.Writes? {
      WriteKeepsPipe(s.pipe, a.write);
      var s1 := s.(pipe := AfterWrite(s.pipe, a.write));
      UnfinishedIsJudged(s1);
      SettleIsSound(s1, a.hangsUp);
    }
    UnfinishedIsJudged(Fail(s, WriteError));
  }

  lemma UnfinishedIsJudged(s: State)
    requires !s.finished
    ensures Judged(s)
  {
  }

  lemma SettleIsSound(s: State, hangsUp: bool)
    requires Sound(s) && !s.finished
    ensures Sound(Settle(s, hangsUp))
  {
    hide Faithful, Bounded, AtEof, WantsRepoll;
  }

  lemma PollIsSound(s: State, a: Answers)
    requires Sound(s) && CanAnswer(s, a)
    ensures Sound(Poll(s, a))
  {
    hide WritePhase, Faithful, Bounded, Judged;
    if !s.finished && ReadSucceeds(s.pipe, a) {
      if WantsRead(s.pipe) { ReadKeepsPipe(s.pipe, a.read.n); }
      UnfinishedIsJudged(ReadPhase(s, a));
      WritePhaseIsSound(ReadPhase(s, a), a);
    }
    UnfinishedIsJudged(s.(finished := false, error := Some(ReadError), results := s.results + [Some(ReadError)]));
  }

  lemma CloseSinkEnds(s: State)
    requires Sound(s) && s.started && (s.sinkOpen || s.finished)
    ensures var t := CloseSink(s);
      && t.finished && !t.sinkOpen && t.sourceOpen == (s.sourceOpen && (s.finished || !s.sinkOpen))
      && Sound(t) && t.pipe == s.pipe
      && t.results == s.results + (if s.finished then [] else [t.error])
      && (s.finished ==> t.error == s.error)
  {
    hide Faithful, Bounded;
  }

  lemma CloseSourceMoves(s: State, a: Answers, announces: bool)
    requires Sound(s) && CanAnswer(s, a) && s.started && !s.finished && s.sourceOpen && s.sinkOpen
    ensures var t := CloseSource(s, a, announces);
      && Sound(t) && Extends(s.pipe, t.pipe) && t.started
      && Emits(s, t, announces && PollFails(s, a)) && (t.sinkOpen || t.finished) && !t.sourceOpen
  {
    hide Poll, Sound, Extends;
    var s1 := s.(sourceOpen := false);
    var s2 := s1.(sourceEof := true);
    SoundFlags(s);
    ItselfExtended(s.pipe);
    PollIsSound(s2, a);
    PollExtends(s2, a);
    PollEmits(s2, a);
    PollFrame(s2, a);
  }

  lemma SoundFlags(s: State)
    requires Sound(s)
    ensures Sound(s.(sourceOpen := false)) && Sound(s.(sourceOpen := false, sourceEof := true))
  {
  }

  /** Cancelling a running job closes both devices and finishes it, with one result for that and
      one more if the last poll meets a failing device; what was delivered stays, still in order,
      and no error is reported only if nothing was left to write and the size was met. */
  lemma KillEnds(s: State, a: Answers, announces: bool)
    requires Inv(s) && CanAnswer(s, a) && s.started && !s.finished && s.sourceOpen && s.sinkOpen
    ensures var t := Close(s, a, announces);
      && t.finished && !t.sourceOpen && !t.sinkOpen
      && |t.results| == |s.results| + 1 + (if announces && PollFails(s, a) then 1 else 0)
      && t.results[|t.results| - 1] == t.error
      && (t.error.None? ==> t.pipe.buffer == [] && (t.size < 0 || t.pipe.written == t.size))
      && Faithful(t.pipe) && s.pipe.Delivered() <= t.pipe.Delivered()
  {
    hide CloseSource, CloseSink, CanAnswer, PollFails, Bounded, Control;
    CloseSourceMoves(s, a, announces);
    CloseSinkEnds(CloseSource(s, a, announces));
  }

  /** Cancelling a job that was not started, or that has finished, only closes the devices. */
  lemma KillOfIdle(s: State, a: Answers, announces: bool)
    requires CanAnswer(s, a) && (!s.started || s.finished)
    ensures Close(s, a, announces) == s.(sourceOpen := false, sinkOpen := false)
  {
    hide CanAnswer;
  }

  // ---- reported progress ---------------------------------------------------------------

  lemma LeftTheSink(p: Pipe)
    requires Faithful(p)
    ensures p.written - p.Backlog() == |p.flushed| - p.encrypted
  {
  }

  /** Each timeout first reports what has left the sink, less the backlog that encryption adds;
      it moves bytes only if the sink is a socket. */
  lemma TimeoutReports(s: State, a: Answers)
    requires Inv(s) && Enabled(s, Tick(a))
    ensures var t := Step(s, Tick(a));
      var reported := s.progress + [|s.pipe.flushed| - s.pipe.encrypted];
      && t.progress == (if t.finished && !s.finished then reported + [t.pipe.written] else reported)
      && (!s.setup.sequentialSink ==> t.pipe == s.pipe)
  {
    hide Poll, Step, Enabled, CanAnswer, Bounded, Control, Truthful;
    var e := Tick(a);
    LeftTheSink(s.pipe);
    StepCases(s, e);
    BeforeFrame(s, e);
    PollReports(Before(s, e), a);
  }

  /** A poll reports nothing, unless it finishes the job: then it reports what was written. */
  lemma PollReports(s: State, a: Answers)
    requires CanAnswer(s, a)
    ensures var t := Poll(s, a);
      t.progress == if t.finished && !s.finished then s.progress + [t.pipe.written] else s.progress
  {
    hide WritePhase;
    if !s.finished && ReadSucceeds(s.pipe, a) { WritePhaseReports(ReadPhase(s, a), a); }
  }

  lemma WritePhaseReports(s: State, a: Answers)
    requires !s.finished
    requires a.write.Writes? ==> a.write.n <= |s.pipe.buffer| && a.write.leaving <= |s.pipe.pending| + a.write.n
    ensures var t := WritePhase(s, a);
      t.progress == if t.finished then s.progress + [t.pipe.written] else s.progress
  {
    hide Settle;
    SettleReports(s, a.hangsUp);
    if a.write.Writes? { SettleReports(s.(pipe := AfterWrite(s.pipe, a.write)), a.hangsUp); }
  }

  lemma SettleReports(s: State, hangsUp: bool)
    requires !s.finished
    ensures var t := Settle(s, hangsUp);
      t.progress == if t.finished then s.progress + [t.pipe.written] else s.progress
  {
    hide AtEof, WantsRepoll, Verdict;
  }

  /** Reported amounts never go back and never run ahead of what has left the sink. */
  ghost predicate Monotone(progress: seq<int>, ceiling: int) {
    && (forall i, j :: 0 <= i < j < |progress| ==> progress[i] <= progress[j])
    && (forall i :: 0 <= i < |progress| ==> 0 <= progress[i] <= ceiling)
  }

  ghost function Ceiling(s: State): int {
    if s.finished then s.pipe.written else |s.pipe.flushed|
  }

  ghost predicate Reporting(s: State) {
    && Monotone(s.progress, Ceiling(s))
    && (s.finished ==> s.progress != [] && s.progress[|s.progress| - 1] == s.pipe.written)
  }

  lemma NextReporting(s: State, t: State)
    requires Reporting(s) && !s.finished
    requires |s.pipe.flushed| <= |t.pipe.flushed| <= t.pipe.written
    requires t.progress == if t.finished then s.progress + [t.pipe.written] else s.progress
    ensures Reporting(t)
  {
  }

  lemma PollKeepsReporting(s: State, a: Answers)
    requires Inv(s) && CanAnswer(s, a) && !s.setup.tls && Reporting(s)
    ensures Reporting(Poll(s, a))
  {
    var t := Poll(s, a);
    PollReports(s, a);
    PollExtends(s, a);
    PollKeepsInv(s, a);
    PollFrame(s, a);
    hide Poll, Reporting, Control, Truthful, Bounded, CanAnswer;
    if !s.finished { NextReporting(s, t); }
  }

  lemma BeforeKeepsReporting(s: State, e: Event)
    requires Inv(s) && Ticking(s) && Enabled(s, e) && e.Polls() && !s.setup.tls && Reporting(s)
    ensures Reporting(Before(s, e))
  {
    hide CanAnswer, Truthful, Bounded;
  }

  lemma FinishKeepsReporting(s: State)
    requires Inv(s) && Reporting(s)
    ensures Reporting(Finish(s))
  {
    hide Truthful, Bounded, Control, Verdict;
  }

  lemma OutsideKeepsReporting(s: State, e: Event)
    requires Enabled(s, e) && !e.Polls() && Reporting(s)
    ensures Reporting(s.(pipe := Outside(s, e)))
  {
    hide CanAnswer;
  }

  lemma StepKeepsReporting(s: State, e: Event)
    requires Inv(s) && Ticking(s) && Enabled(s, e) && !s.setup.tls && Reporting(s)
    ensures Reporting(Step(s, e))
  {
    hide Inv, Ticking, Enabled, CanAnswer, Step, Before, Outside, Poll, Finish, Reporting;
    StepCases(s, e);
    if e.Polls() {
      BeforeFrame(s, e);
      BeforeKeepsInv(s, e);
      BeforeKeepsReporting(s, e);
      PollKeepsReporting(Before(s, e), e.a);
    } else if Ends(e) {
      FinishKeepsReporting(s);
    } else {
      OutsideKeepsReporting(s, e);
    }
  }

  /** Progress of an unencrypted job: the reported amounts never decrease, never exceed what
      was sent, and end at the number of written bytes. */
  lemma {:induction false} ProgressIsMonotone(states: seq<State>, events: seq<Event>, first: State, a: Answers, i: nat)
    requires IsRun(states, events, first, a) && i < |states| && !first.setup.tls
    ensures Monotone(states[i].progress, Ceiling(states[i]))
    ensures states[i].finished ==>
      states[i].progress != [] && states[i].progress[|states[i].progress| - 1] == states[i].pipe.written
  {
    hide Step, Inv, Ticking, DoStart, Monotone, Ceiling;
    if i == 0 {
      StartIsReporting(first, a);
    } else {
      ProgressIsMonotone(states, events, first, a, i - 1);
      RunKeepsInv(states, events, first, a, i - 1);
      assert Enabled(states[i - 1], events[i - 1]);
      StepKeepsReporting(states[i - 1], events[i - 1]);
    }
  }

  lemma StartIsReporting(first: State, a: Answers)
    requires Fresh(first) && CanAnswer(first, a) && !first.setup.tls
    ensures Reporting(DoStart(first, a))
  {
    ArmedIsInv(first);
    PollKeepsReporting(Armed(first), a);
    hide Poll, Inv;
  }
}
