/**
 Copy jobs end: in every fair infinite run with devices that work, the job finishes, and if
 nobody hangs up early it has then delivered the whole source.
 */
module CopyJobFairness {
  import opened CopyJobSpec
  import opened CopyJobSafety
  import opened CopyJobRuns

  // ---- the measure -----------------------------------------------------------------------

  /** Every byte still has to be read, written and sent. */
  function Work(p: Pipe): int {
    3 * p.Unread() + 2 * |p.buffer| + |p.pending|
  }

  /** Encrypting may add any backlog, but only when a byte moves. */
  predicate Less(p: Pipe, q: Pipe) {
    Work(p) < Work(q) || (Work(p) == Work(q) && p.encrypted < q.encrypted)
  }

  predicate AtMost(p: Pipe, q: Pipe) {
    Less(p, q) || (Work(p) == Work(q) && p.encrypted == q.encrypted)
  }

  /** Devices that work: a read with something available and a write with something buffered
      move at least one byte; a file takes and sends everything it is given. */
  predicate Productive(s: State, a: Answers) {
    && CanAnswer(s, a) && Works(a)
    && (WantsRead(s.pipe) && s.pipe.Available() > 0 ==> a.read.n > 0)
    && (Buffered(s.pipe, a) > 0 ==> a.write.n > 0)
    && (!s.setup.sequentialSink ==>
          a.write.n == Buffered(s.pipe, a) && a.write.leaving == |s.pipe.pending| + a.write.n)
  }

  lemma ReadWork(p: Pipe, n: nat)
    requires p.pos + n <= |p.stream|
    ensures Work(AfterRead(p, n)) == Work(p) - n
    ensures n == 0 ==> AfterRead(p, n) == p
  {
    if n == 0 { assert p.buffer + p.stream[p.pos..p.pos] == p.buffer; }
  }

  lemma WriteWork(p: Pipe, w: WriteAnswer)
    requires w.Writes? && w.n <= |p.buffer| && w.leaving <= |p.pending| + w.n
    ensures Work(AfterWrite(p, w)) == Work(p) - w.n - w.leaving
  {
  }

  lemma ReadPhaseOutcome(s: State, a: Answers)
    requires Productive(s, a)
    ensures var t := ReadPhase(s, a);
      && |t.pipe.buffer| == Buffered(s.pipe, a) && t.pipe.pending == s.pipe.pending && t.finished == s.finished
      && (Work(t.pipe) < Work(s.pipe) || t == s)
      && (t == s && WantsRead(s.pipe) ==> s.pipe.Available() == 0)
  {
    if WantsRead(s.pipe) { ReadWork(s.pipe, a.read.n); }
  }

  /** The source was closed, or everything that was promised has arrived and the job is told of
      it: a file is not told what a network reply brings. */
  ghost predicate Ended(s: State) {
    s.sourceEof ||
    ((s.setup.sequentialSink || !s.setup.networkReply) &&
     s.size == |s.pipe.stream| && s.pipe.limit == |s.pipe.stream|)
  }

  lemma EndedAtEof(s: State)
    requires Faithful(s.pipe) && Control(s) && Ended(s)
    requires s.pipe.Available() == 0 && s.pipe.buffer == [] && s.pipe.Backlog() == 0
    ensures AtEof(s)
  {
    assert |s.pipe.flushed + s.pipe.pending + s.pipe.buffer| == s.pipe.pos;
  }

  lemma SettleOutcome(s: State, hangsUp: bool)
    requires !s.finished
    ensures AtEof(s) ==> Settle(s, hangsUp).finished || Settle(s, hangsUp).sawEof
  {
  }

  lemma WritePhaseOutcome(s: State, a: Answers)
    requires !s.finished && a.write.Writes?
    requires a.write.n <= |s.pipe.buffer| && a.write.leaving <= |s.pipe.pending| + a.write.n
    ensures var t := WritePhase(s, a);
      if s.pipe.buffer == [] then
        && t.pipe == s.pipe
        && (AtEof(s) ==> t.finished || t.sawEof)
      else
        Work(t.pipe) == Work(s.pipe) - a.write.n - a.write.leaving
  {
    hide Settle, AfterWrite, Work, AtEof;
    if s.pipe.buffer == [] {
      SettleKeepsPipe(s, a.hangsUp);
      SettleOutcome(s, a.hangsUp);
    } else {
      WriteWork(s.pipe, a.write);
      SettleKeepsPipe(s.(pipe := AfterWrite(s.pipe, a.write)), a.hangsUp);
    }
  }

  /** A poll of working devices moves a byte, or ends the job, or sees the end of the source,
      or waits for the sink to drain. */
  lemma PollOutcome(s: State, a: Answers)
    requires Inv(s) && Productive(s, a) && !s.finished
    ensures var t := Poll(s, a);
      || Work(t.pipe) < Work(s.pipe)
      || (t.pipe == s.pipe
          && (Ended(s) ==> t.finished || t.sawEof || s.pipe.Backlog() > 0))
  {
    hide Inv, AtEof, Ended, WritePhase, AfterRead, Work;
    ReadPhaseOutcome(s, a);
    WritePhaseOutcome(ReadPhase(s, a), a);
    if ReadPhase(s, a) == s && s.pipe.buffer == [] && s.pipe.Backlog() == 0 && Ended(s) {
      assert WantsRead(s.pipe);
      InvParts(s);
      EndedAtEof(s);
    }
  }

  lemma InvParts(s: State)
    requires Inv(s)
    ensures Faithful(s.pipe) && Control(s)
  {
  }

  lemma PollAtMost(s: State, a: Answers)
    requires Inv(s) && Productive(s, a)
    ensures AtMost(Poll(s, a).pipe, s.pipe)
  {
    if !s.finished { PollOutcome(s, a); }
    hide ReadPhase, WritePhase;
  }

  lemma ProductiveBefore(s: State, e: Event)
    requires Inv(s) && Enabled(s, e) && e.Polls() && Productive(s, e.a)
    ensures Inv(Before(s, e)) && Productive(Before(s, e), e.a)
  {
    BeforeKeepsInv(s, e);
    BeforeFrame(s, e);
    hide Inv, Enabled, Before, Work;
  }

  lemma OutsideAtMost(s: State, e: Event)
    requires Enabled(s, e) && !e.Polls() && !Ends(e)
    ensures AtMost(Outside(s, e), s.pipe)
    ensures e.Drain? || e.DrainEncrypted? ==> Less(Outside(s, e), s.pipe)
  {
    hide CanAnswer;
  }

  lemma FinishMovesNothing(s: State)
    ensures Finish(s).pipe == s.pipe
  {
  }

  /** No slot ever adds work, and draining removes some. */
  lemma StepAtMost(s: State, e: Event)
    requires Inv(s) && Enabled(s, e) && (e.Polls() ==> Productive(s, e.a))
    ensures AtMost(Step(s, e).pipe, s.pipe)
    ensures e.Drain? || e.DrainEncrypted? ==> Less(Step(s, e).pipe, s.pipe)
  {
    hide Inv, Enabled, CanAnswer, Step, Before, Outside, Poll, Finish, Productive, Work;
    StepCases(s, e);
    if e.Polls() {
      BeforeFrame(s, e);
      ProductiveBefore(s, e);
      PollAtMost(Before(s, e), e.a);
    } else if Ends(e) {
      FinishMovesNothing(s);
    } else {
      OutsideAtMost(s, e);
    }
  }

  /** An end that was reached stays reached. */
  lemma StepKeepsEnded(s: State, e: Event)
    requires Inv(s) && Enabled(s, e) && Ended(s)
    ensures Ended(Step(s, e))
  {
    hide Enabled, CanAnswer, Step, Bounded, Control, Truthful;
    StepFrame(s, e);
    StepDelivers(s, e);
    StepKeepsInv(s, e);
  }

  // ---- a file as the sink -------------------------------------------------------------------

  /** A file sink holds nothing back.  After the end of the source an unfinished job has another
      poll queued, since nothing else would call it again; and it is finished as soon as it has
      read all that was promised. */
  ghost predicate FileSinkReady(s: State) {
    !s.setup.sequentialSink ==>
      && s.pipe.pending == []
      && (!s.finished ==>
            && s.pipe.buffer == []
            && (s.sourceEof ==> s.queuedPolls > 0)
            && !(s.size == |s.pipe.stream| == s.pipe.pos))
  }

  /** What a poll moves into a file. */
  function Copied(s: State, a: Answers): Pipe
    requires Productive(s, a)
  {
    var p := ReadPhase(s, a).pipe;
    if p.buffer == [] then p else AfterWrite(p, a.write)
  }

  lemma PollCopies(s: State, a: Answers)
    requires Inv(s) && Productive(s, a) && !s.finished
    requires !s.setup.sequentialSink && s.pipe.pending == [] && s.pipe.buffer == []
    ensures var q := Copied(s, a);
      && Poll(s, a) == Settle(s.(pipe := q), a.hangsUp)
      && Faithful(q) && q.pending == [] && q.buffer == [] && q.encrypted == 0 && q.stream == s.pipe.stream
  {
    hide Settle, Work, Truthful;
    ReadPhaseKeepsInv(s, a);
    ReadPhaseBuffers(s, a);
    if ReadPhase(s, a).pipe.buffer != [] { WriteKeepsPipe(ReadPhase(s, a).pipe, a.write); }
  }

  lemma PollReadiesFileSink(s: State, a: Answers)
    requires Inv(s) && Productive(s, a) && !s.finished
    requires !s.setup.sequentialSink && s.pipe.pending == [] && s.pipe.buffer == []
    ensures FileSinkReady(Poll(s, a))
    ensures var t := Poll(s, a); t.finished || (t.pipe.Available() > 0 ==> t.queuedPolls > 0)
  {
    hide Poll, Settle, Copied, Faithful, Bounded, Truthful, Work, FileSinkReady, Productive;
    PollCopies(s, a);
    SettleReadiesFileSink(s.(pipe := Copied(s, a)), a.hangsUp);
  }

  lemma SettleReadiesFileSink(s: State, hangsUp: bool)
    requires Faithful(s.pipe) && s.setup.Sensible() && !s.setup.sequentialSink && !s.finished
    requires s.pipe.pending == [] && s.pipe.buffer == [] && s.pipe.encrypted == 0
    ensures FileSinkReady(Settle(s, hangsUp))
    ensures var t := Settle(s, hangsUp); t.finished || (t.pipe.Available() > 0 ==> t.queuedPolls > 0)
  {
    hide Finish;
    AfterFinish(s.(sawEof := true));
    FinishMovesNothing(s.(sawEof := true));
    assert |s.pipe.flushed + s.pipe.pending + s.pipe.buffer| == |s.pipe.stream[..s.pipe.pos]|;
  }

  lemma AfterFinish(s: State)
    ensures Finish(s).finished && Finish(s).setup == s.setup && Finish(s).queuedPolls == s.queuedPolls
  {
  }

  lemma StepKeepsFileSinkReady(s: State, e: Event)
    requires Inv(s) && Enabled(s, e) && (e.Polls() ==> Productive(s, e.a))
    requires FileSinkReady(s) && !s.setup.sequentialSink
    ensures FileSinkReady(Step(s, e))
  {
    hide Inv, CanAnswer, Step, Before, Poll, Productive, Verdict, AfterDrain;
    StepCases(s, e);
    if e.Polls() {
      BeforeFrame(s, e);
      ProductiveBefore(s, e);
      if OnlyReports(s, e) {
        ReportReadies(s, e);
      } else if s.finished {
        PollFrame(Before(s, e), e.a);
      } else {
        PollReadiesFileSink(Before(s, e), e.a);
      }
    }
  }

  lemma ReportReadies(s: State, e: Event)
    requires Enabled(s, e) && OnlyReports(s, e) && FileSinkReady(s)
    ensures FileSinkReady(Before(s, e))
  {
    hide CanAnswer;
  }

  // ---- fair runs ------------------------------------------------------------------------------

  ghost predicate IsInfiniteRun(run: nat -> State, event: nat -> Event, first: State, a: Answers) {
    && Fresh(first) && Productive(first, a)
    && run(0) == DoStart(first, a)
    && forall i: nat {:trigger event(i)} ::
         && Enabled(run(i), event(i))
         && (event(i).Polls() ==> Productive(run(i), event(i).a))
         && run(i + 1) == Step(run(i), event(i))
  }

  ghost predicate TimerFires(run: nat -> State, event: nat -> Event, i: nat) {
    run(i).timer ==> exists j: nat {:trigger event(j)} :: i <= j && (event(j).Tick? || run(j).finished)
  }

  ghost predicate QueueRuns(run: nat -> State, event: nat -> Event, i: nat) {
    run(i).queuedPolls > 0 ==> exists j: nat {:trigger event(j)} :: i <= j && event(j).RunQueuedPoll?
  }

  ghost predicate SinkDrains(run: nat -> State, event: nat -> Event, i: nat) {
    run(i).pipe.Backlog() > 0 ==>
      exists j: nat {:trigger event(j)} :: i <= j && (event(j).Drain? || event(j).DrainEncrypted?)
  }

  ghost predicate PeerHangsUp(run: nat -> State, event: nat -> Event, i: nat) {
    run(i).setup.tls && run(i).sawEof ==>
      exists j: nat {:trigger event(j)} :: i <= j && event(j).Disconnected?
  }

  /** Bytes that arrive are announced, except those of a network reply. */
  ghost predicate Announced(run: nat -> State, event: nat -> Event, i: nat) {
    Arrives(event(i)) && run(i).setup.sequentialSource && !run(i).setup.networkReply ==>
      exists j: nat {:trigger event(j)} :: i < j && (event(j).ReadyRead? || run(j).finished)
  }

  predicate Arrives(e: Event) {
    e.Arrive? && e.n > 0
  }

  /** A file ends where it ends; a stream is closed at some point, or has brought all that was
      promised. */
  ghost predicate SourceEnds(run: nat -> State, event: nat -> Event, i: nat) {
    !run(i).setup.sequentialSource || event(i).SourceClosed? || Ended(run(i)) || run(i).finished
  }

  /** The event loop and the devices keep going, and the source ends at some point. */
  ghost predicate Fair(run: nat -> State, event: nat -> Event) {
    && (forall i: nat :: TimerFires(run, event, i))
    && (forall i: nat :: QueueRuns(run, event, i))
    && (forall i: nat :: SinkDrains(run, event, i))
    && (forall i: nat :: PeerHangsUp(run, event, i))
    && (forall i: nat :: Announced(run, event, i))
    && exists i: nat :: SourceEnds(run, event, i)
  }

  ghost predicate Good(s: State) {
    Inv(s) && Ticking(s) && FileSinkReady(s) && s.started
  }

  lemma StartIsGood(first: State, a: Answers)
    requires Fresh(first) && Productive(first, a)
    ensures Good(DoStart(first, a)) && DoStart(first, a).setup == first.setup
  {
    var armed := Armed(first);
    StartKeepsSource(first, a);
    StartKeepsInv(first, a);
    ArmedIsInv(first);
    PollFrame(armed, a);
    if !first.setup.sequentialSink { PollReadiesFileSink(armed, a); }
    hide Poll, Inv;
  }

  lemma StepKeepsGood(s: State, e: Event)
    requires Good(s) && Enabled(s, e) && (e.Polls() ==> Productive(s, e.a))
    ensures Good(Step(s, e)) && Step(s, e).setup == s.setup
  {
    hide Inv, Ticking, FileSinkReady, Enabled, Step, Productive;
    StepKeepsInv(s, e);
    StepKeepsTicking(s, e);
    StepFrame(s, e);
    if s.setup.sequentialSink { SocketSinkReady(Step(s, e)); } else { StepKeepsFileSinkReady(s, e); }
  }

  lemma SocketSinkReady(s: State)
    requires s.setup.sequentialSink
    ensures FileSinkReady(s)
  {
  }

  lemma RunStep(run: nat -> State, event: nat -> Event, first: State, a: Answers, i: nat)
    requires IsInfiniteRun(run, event, first, a)
    ensures Enabled(run(i), event(i))
    ensures event(i).Polls() ==> Productive(run(i), event(i).a)
    ensures run(i + 1) == Step(run(i), event(i))
  {
    hide Enabled, Productive, Step, Fresh, DoStart;
  }

  lemma {:induction false} RunIsGood(run: nat -> State, event: nat -> Event, first: State, a: Answers, i: nat)
    requires IsInfiniteRun(run, event, first, a)
    ensures Good(run(i)) && run(i).setup == first.setup
  {
    hide Good, Step, DoStart, Productive, Enabled;
    if i == 0 {
      StartIsGood(first, a);
    } else {
      RunIsGood(run, event, first, a, i - 1);
      RunStep(run, event, first, a, i - 1);
      StepKeepsGood(run(i - 1), event(i - 1));
    }
  }

  lemma {:induction false} RunAtMost(run: nat -> State, event: nat -> Event, first: State, a: Answers, i: nat, j: nat)
    requires IsInfiniteRun(run, event, first, a) && i <= j
    ensures AtMost(run(j).pipe, run(i).pipe)
    ensures Ended(run(i)) ==> Ended(run(j))
    decreases j - i
  {
    hide IsInfiniteRun, Step, Productive, Inv, Enabled, Work;
    if i < j {
      RunAtMost(run, event, first, a, i, j - 1);
      RunIsGood(run, event, first, a, j - 1);
      RunStep(run, event, first, a, j - 1);
      StepAtMost(run(j - 1), event(j - 1));
      if Ended(run(j - 1)) { StepKeepsEnded(run(j - 1), event(j - 1)); }
    }
  }

  /** Bytes arrived at some point before i, and their announcement is still to come. */
  ghost predicate Due(event: nat -> Event, i: nat) {
    exists k: nat {:trigger event(k)} :: k < i && Arrives(event(k)) && forall m: nat :: k < m < i ==> !event(m).ReadyRead?
  }

  ghost predicate Attended(s: State, due: bool) {
    !s.finished && s.setup.sequentialSource && s.pipe.Available() > 0 ==> s.queuedPolls > 0 || due
  }

  /** An event at a job into a file leaves a queued poll behind, or announces nothing new. */
  lemma StepAttends(s: State, e: Event)
    requires Good(s) && Enabled(s, e) && (e.Polls() ==> Productive(s, e.a)) && !s.setup.sequentialSink
    ensures Attended(Step(s, e), Arrives(e) || (!e.ReadyRead? && !Attended(s, false)))
  {
    hide Inv, CanAnswer, Ticking, Step, Before, Poll, Finish, Productive, AfterDrain;
    StepCases(s, e);
    StepFrame(s, e);
    if e.Polls() {
      BeforeFrame(s, e);
      if OnlyReports(s, e) {
        QuietBefore(s, e);
      } else {
        ProductiveBefore(s, e);
        if !s.finished { PollReadiesFileSink(Before(s, e), e.a); }
      }
    } else if Ends(e) {
      AfterFinish(s);
    }
  }

  lemma QuietBefore(s: State, e: Event)
    requires Enabled(s, e) && OnlyReports(s, e)
    ensures Before(s, e).queuedPolls == s.queuedPolls
  {
    hide CanAnswer;
  }

  /** While bytes wait at a job into a file, a poll is queued or an announcement is due. */
  lemma {:induction false} RunIsAttended(run: nat -> State, event: nat -> Event, first: State, a: Answers, i: nat)
    requires IsInfiniteRun(run, event, first, a) && !first.setup.sequentialSink
    ensures Attended(run(i), Due(event, i))
  {
    hide Good, Fresh, Step, Poll, Productive, Enabled;
    if i == 0 {
      StartIsAttended(first, a);
    } else {
      RunIsAttended(run, event, first, a, i - 1);
      RunIsGood(run, event, first, a, i - 1);
      RunStep(run, event, first, a, i - 1);
      StepAttends(run(i - 1), event(i - 1));
      if Arrives(event(i - 1)) {
        assert Due(event, i);
      } else if !event(i - 1).ReadyRead? && Due(event, i - 1) {
        var k: nat :| k < i - 1 && Arrives(event(k)) && forall m: nat :: k < m < i - 1 ==> !event(m).ReadyRead?;
        assert forall m: nat :: k < m < i ==> !event(m).ReadyRead?;
        assert Due(event, i);
      }
    }
  }

  lemma StartIsAttended(first: State, a: Answers)
    requires Fresh(first) && Productive(first, a) && !first.setup.sequentialSink
    ensures Attended(DoStart(first, a), false)
  {
    ArmedIsInv(first);
    PollReadiesFileSink(Armed(first), a);
    hide Poll, Inv;
  }

  /** Some poll comes after every state of an unfinished job whose source has ended. */
  lemma NextPoll(run: nat -> State, event: nat -> Event, first: State, a: Answers, i: nat) returns (j: nat)
    requires IsInfiniteRun(run, event, first, a) && Fair(run, event)
    requires Ended(run(i)) && !run(i).finished
    ensures i <= j
    ensures run(j).finished || event(j).RunQueuedPoll? || event(j).ReadyRead?
            || (event(j).Tick? && first.setup.sequentialSink)
  {
    hide IsInfiniteRun, Inv;
    assert TimerFires(run, event, i) && QueueRuns(run, event, i);
    RunIsGood(run, event, first, a, i);
    if first.setup.sequentialSink {
      j :| i <= j && (event(j).Tick? || run(j).finished);
    } else if run(i).queuedPolls > 0 {
      j :| i <= j && event(j).RunQueuedPoll?;
    } else {
      j := NextAnnouncement(run, event, first, a, i);
    }
  }

  /** An unfinished job into a file that has been sent all that was promised, but was not told so
      and has no poll queued, is about to be told. */
  lemma NextAnnouncement(run: nat -> State, event: nat -> Event, first: State, a: Answers, i: nat) returns (j: nat)
    requires IsInfiniteRun(run, event, first, a) && Fair(run, event) && !first.setup.sequentialSink
    requires Ended(run(i)) && !run(i).finished && run(i).queuedPolls == 0
    ensures i <= j && (run(j).finished || event(j).ReadyRead?)
  {
    hide IsInfiniteRun, Bounded, Truthful;
    RunIsGood(run, event, first, a, i);
    RunIsAttended(run, event, first, a, i);
    var k: nat :| k < i && Arrives(event(k)) && forall m: nat :: k < m < i ==> !event(m).ReadyRead?;
    RunIsGood(run, event, first, a, k);
    assert Announced(run, event, k);
    j :| k < j && (event(j).ReadyRead? || run(j).finished);
    if j < i {
      StaysFinished(run, event, first, a, j, i);
      assert false;
    }
  }

  lemma {:induction false} StaysFinished(run: nat -> State, event: nat -> Event, first: State, a: Answers, i: nat, j: nat)
    requires IsInfiniteRun(run, event, first, a) && i <= j && run(i).finished
    ensures run(j).finished
    decreases j - i
  {
    hide IsInfiniteRun, Enabled, Step, Productive;
    if i < j {
      StaysFinished(run, event, first, a, i, j - 1);
      RunStep(run, event, first, a, j - 1);
      StepFrame(run(j - 1), event(j - 1));
    }
  }

  /** What a poll of an unfinished job does once the source has ended. */
  lemma PollStep(s: State, e: Event)
    requires Inv(s) && Enabled(s, e) && e.Polls() && Productive(s, e.a) && !s.finished && Ended(s)
    requires !OnlyReports(s, e)
    ensures var t := Step(s, e);
      Less(t.pipe, s.pipe) || t.finished || t.sawEof || (t.pipe == s.pipe && s.pipe.Backlog() > 0)
  {
    hide Inv, Enabled, CanAnswer, Step, Before, Poll, Productive, Work;
    StepCases(s, e);
    BeforeFrame(s, e);
    ProductiveBefore(s, e);
    PollOutcome(Before(s, e), e.a);
  }

  lemma HangUp(run: nat -> State, event: nat -> Event, first: State, a: Answers, i: nat) returns (n: nat)
    requires IsInfiniteRun(run, event, first, a) && PeerHangsUp(run, event, i) && run(i).sawEof
    ensures run(n).finished
  {
    hide IsInfiniteRun, Enabled, CanAnswer, Step, Before, Poll, Finish;
    RunIsGood(run, event, first, a, i);
    if run(i).finished { return i; }
    var j: nat :| i <= j && event(j).Disconnected?;
    RunStep(run, event, first, a, j);
    StepCases(run(j), event(j));
    AfterFinish(run(j));
    return j + 1;
  }

  lemma AfterDraining(run: nat -> State, event: nat -> Event, first: State, a: Answers, i: nat) returns (n: nat)
    requires IsInfiniteRun(run, event, first, a) && SinkDrains(run, event, i) && run(i).pipe.Backlog() > 0
    ensures i <= n && Less(run(n).pipe, run(i).pipe)
  {
    hide IsInfiniteRun, Step, Enabled, Productive, Inv, Work;
    var k: nat :| i <= k && (event(k).Drain? || event(k).DrainEncrypted?);
    RunAtMost(run, event, first, a, i, k);
    RunIsGood(run, event, first, a, k);
    RunStep(run, event, first, a, k);
    StepAtMost(run(k), event(k));
    n := k + 1;
  }

  /** From every unfinished state the job comes to one with less work, or to its end. */
  lemma NextProgress(run: nat -> State, event: nat -> Event, first: State, a: Answers, i: nat) returns (n: nat)
    requires IsInfiniteRun(run, event, first, a) && Fair(run, event)
    requires Ended(run(i)) && !run(i).finished
    ensures i <= n
    ensures run(n).finished || Less(run(n).pipe, run(i).pipe) || run(n).sawEof
  {
    hide IsInfiniteRun, Step, Enabled, Productive, Inv, Work, TimerFires, QueueRuns, SinkDrains, PeerHangsUp, Announced;
    var j := NextPoll(run, event, first, a, i);
    RunAtMost(run, event, first, a, i, j);
    RunIsGood(run, event, first, a, j);
    if run(j).finished { return j; }
    RunStep(run, event, first, a, j);
    PollStep(run(j), event(j));
    n := j + 1;
    if run(n).pipe == run(j).pipe && run(n).pipe.Backlog() > 0 {
      assert SinkDrains(run, event, n);
      n := AfterDraining(run, event, first, a, n);
    }
  }

  lemma {:induction false} Descend(run: nat -> State, event: nat -> Event, first: State, a: Answers, i: nat) returns (n: nat)
    requires IsInfiniteRun(run, event, first, a) && Fair(run, event) && Ended(run(i))
    ensures run(n).finished
    decreases Work(run(i).pipe), run(i).pipe.encrypted
  {
    hide IsInfiniteRun, Fair;
    if run(i).finished { return i; }
    n := NextProgress(run, event, first, a, i);
    RunAtMost(run, event, first, a, i, n);
    RunIsGood(run, event, first, a, i);
    if run(n).finished {
    } else if run(n).sawEof {
      FairHangsUp(run, event, n);
      n := HangUp(run, event, first, a, n);
    } else {
      n := Descend(run, event, first, a, n);
    }
  }

  lemma FairHangsUp(run: nat -> State, event: nat -> Event, i: nat)
    requires Fair(run, event)
    ensures PeerHangsUp(run, event, i)
  {
  }

  /** Every fair run of a job between working devices finishes. */
  lemma FairRunsFinish(run: nat -> State, event: nat -> Event, first: State, a: Answers)
    requires IsInfiniteRun(run, event, first, a) && Fair(run, event)
    ensures exists n: nat :: run(n).finished
  {
    hide IsInfiniteRun, Step, Productive, Enabled, Work;
    var i: nat :| SourceEnds(run, event, i);
    RunIsGood(run, event, first, a, i);
    if event(i).SourceClosed? {
      RunStep(run, event, first, a, i);
      ClosedEnds(run(i), event(i));
      i := i + 1;
    }
    if !run(i).finished {
      var n := Descend(run, event, first, a, i);
    }
  }

  /** The signal that the source was closed is noted. */
  lemma ClosedEnds(s: State, e: Event)
    requires Enabled(s, e) && e.SourceClosed?
    ensures Step(s, e).finished || Step(s, e).sourceEof
  {
    hide CanAnswer, Step, Poll;
    StepCases(s, e);
    PollFrame(Before(s, e), e.a);
  }

  // ---- and it delivers ------------------------------------------------------------------------

  /** The expected size is unknown or right; once the end is seen nothing is left; no error. */
  ghost predicate Complete(s: State) {
    && (s.size < 0 || s.size == |s.pipe.stream|)
    && (s.sawEof || s.finished ==> Emptied(s.pipe))
    && s.error.None?
  }

  lemma FinishKeepsComplete(s: State)
    requires Faithful(s.pipe) && Complete(s) && (s.sawEof || s.finished)
    ensures Complete(Finish(s))
  {
    assert |s.pipe.stream[..s.pipe.pos]| == |s.pipe.flushed|;
  }

  lemma SettleKeepsComplete(s: State, hangsUp: bool)
    requires Inv(s) && Complete(s) && !s.finished
    ensures Complete(Settle(s, hangsUp))
  {
    if AtEof(s) {
      EofMeansEmptied(s);
      FinishKeepsComplete(s.(sawEof := true));
    }
    hide Faithful, Emptied, Finish;
  }

  lemma EofMeansEmptied(s: State)
    requires Inv(s) && Complete(s) && AtEof(s)
    ensures Emptied(s.pipe)
  {
    assert |s.pipe.stream[..s.pipe.pos]| == |s.pipe.flushed|;
  }

  lemma WritePhaseKeepsComplete(s: State, a: Answers)
    requires Inv(s) && Complete(s) && !s.finished && a.write.Writes?
    requires a.write.n <= |s.pipe.buffer| && a.write.leaving <= |s.pipe.pending| + a.write.n
    requires !s.setup.tls ==> a.write.encrypted == 0
    ensures Complete(WritePhase(s, a))
  {
    hide Settle, Faithful, Bounded;
    if s.pipe.buffer == [] {
      SettleKeepsComplete(s, a.hangsUp);
    } else {
      WriteKeepsPipe(s.pipe, a.write);
      var s1 := s.(pipe := AfterWrite(s.pipe, a.write));
      PhaseKeepsInv(s, s1.pipe);
      SettleKeepsComplete(s1, a.hangsUp);
    }
  }

  lemma ReadPhaseKeepsComplete(s: State, a: Answers)
    requires Inv(s) && Complete(s) && !s.finished && CanAnswer(s, a) && Works(a)
    ensures Complete(ReadPhase(s, a))
  {
  }

  lemma PollKeepsComplete(s: State, a: Answers)
    requires Inv(s) && Complete(s) && CanAnswer(s, a) && Works(a)
    ensures Complete(Poll(s, a))
  {
    hide WritePhase, Complete, Inv;
    if !s.finished {
      ReadPhaseKeepsInv(s, a);
      ReadPhaseKeepsComplete(s, a);
      WritePhaseKeepsComplete(ReadPhase(s, a), a);
    }
  }

  /** Nobody closes the sink, and an encrypted peer hangs up only after the end was seen. */
  predicate Patient(s: State, e: Event) {
    !e.SinkClosing? && (e.Disconnected? ==> s.sawEof)
  }

  lemma BeforeKeepsComplete(s: State, e: Event)
    requires Complete(s) && Enabled(s, e) && e.Polls()
    ensures Complete(Before(s, e))
  {
    hide CanAnswer;
  }

  lemma OutsideKeepsComplete(s: State, e: Event)
    requires Complete(s) && Inv(s) && Enabled(s, e) && !e.Polls() && !Ends(e)
    ensures Complete(s.(pipe := Outside(s, e)))
  {
    hide CanAnswer, Bounded, Control, Truthful;
  }

  lemma StepKeepsComplete(s: State, e: Event)
    requires Inv(s) && Complete(s) && Enabled(s, e) && (e.Polls() ==> Works(e.a)) && Patient(s, e)
    ensures Complete(Step(s, e))
  {
    hide Enabled, CanAnswer, Step, Before, Outside, Poll, Finish, Complete, Inv;
    StepCases(s, e);
    if e.Polls() {
      BeforeKeepsInv(s, e);
      BeforeKeepsComplete(s, e);
      PollKeepsComplete(Before(s, e), e.a);
    } else if Ends(e) {
      InvParts(s);
      FinishKeepsComplete(s);
    } else {
      OutsideKeepsComplete(s, e);
    }
  }

  lemma {:induction false} RunIsComplete(run: nat -> State, event: nat -> Event, first: State, a: Answers, i: nat)
    requires IsInfiniteRun(run, event, first, a)
    requires first.size < 0 || first.size == |first.pipe.stream|
    requires forall k: nat {:trigger event(k)} :: Patient(run(k), event(k))
    ensures Complete(run(i)) && run(i).pipe.stream == first.pipe.stream
  {
    hide Good, Step, Complete, Enabled, Inv, Poll;
    if i == 0 {
      ArmedIsInv(first);
      assert Complete(Armed(first)) by { assert |first.pipe.stream| >= 0; ArmedIsComplete(first); }
      PollKeepsComplete(Armed(first), a);
      StartKeepsSource(first, a);
      TimerKeepsComplete(Poll(Armed(first), a));
    } else {
      RunIsComplete(run, event, first, a, i - 1);
      RunIsGood(run, event, first, a, i - 1);
      RunStep(run, event, first, a, i - 1);
      GoodStepCompletes(run(i - 1), event(i - 1));
    }
  }

  lemma ArmedIsComplete(first: State)
    requires Fresh(first) && (first.size < 0 || first.size == |first.pipe.stream|)
    ensures Complete(Armed(first))
  {
  }

  lemma TimerKeepsComplete(s: State)
    requires Complete(s)
    ensures Complete(s.(timer := true))
  {
  }

  lemma GoodStepCompletes(s: State, e: Event)
    requires Good(s) && Complete(s) && Enabled(s, e) && (e.Polls() ==> Productive(s, e.a)) && Patient(s, e)
    ensures Complete(Step(s, e)) && Step(s, e).pipe.stream == s.pipe.stream
  {
    StepKeepsComplete(s, e);
    StepDelivers(s, e);
    hide Step, Complete;
  }

  /** In every fair run between working devices in which nobody hangs up early, a job whose
      expected size is unknown or right ends without error, with the whole source sent. */
  lemma FairRunsDeliver(run: nat -> State, event: nat -> Event, first: State, a: Answers)
    requires IsInfiniteRun(run, event, first, a) && Fair(run, event)
    requires first.size < 0 || first.size == |first.pipe.stream|
    requires forall k: nat {:trigger event(k)} :: Patient(run(k), event(k))
    ensures exists n: nat :: run(n).finished && run(n).error.None? && run(n).pipe.flushed == first.pipe.stream
  {
    hide IsInfiniteRun, Fair, Step, Enabled;
    FairRunsFinish(run, event, first, a);
    var n: nat :| run(n).finished;
    RunIsGood(run, event, first, a, n);
    RunIsComplete(run, event, first, a, n);
    var p := run(n).pipe;
    assert p.flushed == p.flushed + p.pending + p.buffer == p.stream[..p.pos] == p.stream;
  }

  // ---- the size that is reported ----------------------------------------------------------------

  /** The first n steps of an infinite run are a run. */
  lemma Prefix(run: nat -> State, event: nat -> Event, first: State, a: Answers, n: nat)
    returns (states: seq<State>, events: seq<Event>)
    requires IsInfiniteRun(run, event, first, a)
    ensures IsRun(states, events, first, a) && |states| == n + 1 && states[n] == run(n)
  {
    states := seq(n + 1, i requires 0 <= i <= n => run(i));
    events := seq(n, i requires 0 <= i < n => event(i));
    forall i | 0 <= i < |events|
      ensures Enabled(states[i], events[i]) && states[i + 1] == Step(states[i], events[i])
    {
      RunStep(run, event, first, a, i);
    }
    hide Step, Enabled, Poll;
  }

  /** A finished copy into a file reports exactly the size of that file: this is the size the
      album art cache adds to its byte count. */
  lemma ReportedSizeIsFileSize(run: nat -> State, event: nat -> Event, first: State, a: Answers, n: nat)
    requires IsInfiniteRun(run, event, first, a) && !first.setup.sequentialSink && run(n).finished
    ensures run(n).progress != [] && run(n).progress[|run(n).progress| - 1] == |run(n).pipe.flushed|
  {
    var states, events := Prefix(run, event, first, a, n);
    RunIsGood(run, event, first, a, n);
    hide IsInfiniteRun, IsRun;
    ProgressIsMonotone(states, events, first, a, n);
  }

  // ---- fair runs exist ----------------------------------------------------------------------------

  /** The answers of two files to one poll: everything is read, written and sent. */
  function AllAtOnce(n: nat): Answers {
    Answers(Reads(n), Writes(n, n, 0), false)
  }

  /** A file that fits the buffer is copied to another file by the very first poll, and then the
      timer of the finished job is started. */
  lemma SmallFileAtOnce(first: State)
    requires Fresh(first) && !first.setup.sequentialSource && !first.setup.sequentialSink
    requires |first.pipe.stream| <= BUFFER_CAPACITY
    requires first.size < 0 || first.size == |first.pipe.stream|
    ensures Productive(first, AllAtOnce(|first.pipe.stream|))
    ensures var t := DoStart(first, AllAtOnce(|first.pipe.stream|));
      && t.finished && t.error.None? && t.pipe.flushed == first.pipe.stream
      && t.timer && t.queuedPolls == 0 && t.pipe.Backlog() == 0
  {
    var n := |first.pipe.stream|;
    var a := AllAtOnce(n);
    var armed := Armed(first);
    var p := AfterRead(first.pipe, n);
    assert p.buffer == first.pipe.stream;
    assert ReadPhase(armed, a) == armed.(pipe := p);
    if n > 0 {
      var q := AfterWrite(p, a.write);
      assert p.buffer[..n] == first.pipe.stream;
      assert q.flushed == first.pipe.stream && q.pending == [] && q.buffer == [];
      FinishesAt(armed.(pipe := q));
    } else {
      assert p.flushed == first.pipe.stream;
      FinishesAt(armed.(pipe := p));
    }
    hide Settle, AfterRead, AfterWrite, Armed;
  }

  lemma FinishesAt(s: State)
    requires AtEof(s) && !s.finished && !s.setup.tls && s.error.None? && s.size == s.pipe.written
    ensures var t := Settle(s, false);
      t.finished && t.error.None? && t.pipe == s.pipe && t.queuedPolls == s.queuedPolls
  {
  }

  function PadStates(states: seq<State>): nat -> State
    requires states != []
  {
    (i: nat) => if i < |states| then states[i] else states[|states| - 1]
  }

  function PadEvents(events: seq<Event>): nat -> Event {
    (i: nat) => if i < |events| then events[i] else Idle
  }

  lemma PaddedRun(states: seq<State>, events: seq<Event>, first: State, a: Answers)
    requires IsRun(states, events, first, a) && Productive(first, a)
    requires forall k :: 0 <= k < |events| && events[k].Polls() ==> Productive(states[k], events[k].a)
    ensures IsInfiniteRun(PadStates(states), PadEvents(events), first, a)
  {
    hide Fresh, CanAnswer, Poll, DoStart, Productive;
  }

  /** A run that finishes is fair if no poll stays queued and what was queued last is drained. */
  lemma PaddedIsFair(states: seq<State>, events: seq<Event>, first: State, a: Answers, drain: nat)
    requires IsRun(states, events, first, a) && states[|states| - 1].finished
    requires forall k :: 0 <= k < |states| ==> states[k].queuedPolls == 0 && !states[k].setup.tls
    requires forall k :: 0 <= k < |states| && states[k].pipe.Backlog() > 0 ==> k <= drain < |events| && events[drain].Drain?
    ensures Fair(PadStates(states), PadEvents(events))
  {
    hide IsInfiniteRun, Fresh, CanAnswer, Enabled, Step, DoStart;
    var run, event := PadStates(states), PadEvents(events);
    forall i: nat ensures TimerFires(run, event, i) && Announced(run, event, i) {
      assert event(i + |states|).Idle? && run(i + |states|).finished;
    }
    forall i: nat ensures SinkDrains(run, event, i) {
      if run(i).pipe.Backlog() > 0 {
        var k := if i < |states| then i else |states| - 1;
        assert states[k].pipe.Backlog() > 0;
        assert event(drain).Drain?;
      }
    }
    assert SourceEnds(run, event, |states|);
  }

  /** There is a fair run of this job in which nobody hangs up early. */
  ghost predicate HasFairRun(first: State) {
    exists run: nat -> State, event: nat -> Event, a: Answers ::
      && IsInfiniteRun(run, event, first, a) && Fair(run, event)
      && forall k: nat {:trigger event(k)} :: Patient(run(k), event(k))
  }

  /** A step of working devices in which nobody hangs up and no poll stays queued. */
  ghost predicate FairStep(s: State, e: Event, t: State) {
    && Enabled(s, e) && t == Step(s, e) && (e.Polls() ==> Productive(s, e.a))
    && !Ends(e) && t.queuedPolls == 0
  }

  ghost predicate FairStart(first: State, a: Answers, s: State) {
    && Fresh(first) && !first.setup.tls && Productive(first, a)
    && s == DoStart(first, a) && s.queuedPolls == 0
  }

  lemma CanAnswerFirst(first: State, a: Answers)
    requires Productive(first, a)
    ensures CanAnswer(first, a)
  {
  }

  lemma {:induction false} FairStepsKeep(states: seq<State>, events: seq<Event>, first: State, a: Answers, k: nat)
    requires |states| == |events| + 1 && FairStart(first, a, states[0])
    requires forall i :: 0 <= i < |events| ==> FairStep(states[i], events[i], states[i + 1])
    requires k < |states|
    ensures states[k].queuedPolls == 0 && !states[k].setup.tls
  {
    hide Fresh, Enabled, Productive, Step, DoStart;
    if k == 0 {
      CanAnswerFirst(first, a);
      StartKeepsSource(first, a);
    } else {
      FairStepsKeep(states, events, first, a, k - 1);
      assert FairStep(states[k - 1], events[k - 1], states[k]);
      StepFrame(states[k - 1], events[k - 1]);
    }
  }

  lemma FairRun(states: seq<State>, events: seq<Event>, first: State, a: Answers, drain: nat)
    requires |states| == |events| + 1 && FairStart(first, a, states[0]) && states[|states| - 1].finished
    requires forall k :: 0 <= k < |events| ==> FairStep(states[k], events[k], states[k + 1])
    requires forall k :: 0 <= k < |states| && states[k].pipe.Backlog() > 0 ==> k <= drain < |events| && events[drain].Drain?
    ensures HasFairRun(first)
  {
    hide Fresh, Enabled, Productive, Step, DoStart, IsInfiniteRun, Fair;
    forall k | 0 <= k < |states| ensures states[k].queuedPolls == 0 && !states[k].setup.tls {
      FairStepsKeep(states, events, first, a, k);
    }
    forall k | 0 <= k < |events|
      ensures Enabled(states[k], events[k]) && states[k + 1] == Step(states[k], events[k])
      ensures events[k].Polls() ==> Productive(states[k], events[k].a)
    {
      assert FairStep(states[k], events[k], states[k + 1]);
    }
    CanAnswerFirst(first, a);
    PaddedRun(states, events, first, a);
    PaddedIsFair(states, events, first, a, drain);
    var run, event := PadStates(states), PadEvents(events);
    forall k: nat ensures Patient(run(k), event(k)) {
      if k < |events| { assert FairStep(states[k], events[k], states[k + 1]); }
    }
  }

  /** The premises of FairRunsFinish and FairRunsDeliver can be met, first by a job that copies one
      file to another at once. */
  lemma FairFileCopy(first: State)
    requires Fresh(first) && !first.setup.sequentialSource && !first.setup.sequentialSink
    requires |first.pipe.stream| <= BUFFER_CAPACITY
    requires first.size < 0 || first.size == |first.pipe.stream|
    ensures HasFairRun(first)
  {
    var a := AllAtOnce(|first.pipe.stream|);
    SmallFileAtOnce(first);
    hide DoStart, Productive, HasFairRun;
    FairRun([DoStart(first, a)], [], first, a, 0);
  }

  /** A poll that finds nothing to read and nothing to write. */
  lemma IdlePoll(s: State)
    requires !s.finished && s.pipe.buffer == [] && s.pipe.pos == s.pipe.limit <= |s.pipe.stream|
    requires s.setup.sequentialSink || s.pipe.pending == []
    ensures Productive(s, AllAtOnce(0)) && Poll(s, AllAtOnce(0)) == Settle(s, false)
  {
    hide Settle;
    assert AfterRead(s.pipe, 0) == s.pipe;
  }

  /** A stream that has brought nothing yet, with one byte or more to come, at most a bufferful. */
  ghost predicate Awaiting(first: State) {
    && Fresh(first) && first.setup.sequentialSource && !first.setup.tls
    && first.pipe.limit == 0 && 0 < |first.pipe.stream| <= BUFFER_CAPACITY
    && (first.size < 0 || first.size == |first.pipe.stream|)
  }

  lemma AwaitingStarts(first: State)
    requires Awaiting(first)
    ensures Productive(first, AllAtOnce(0)) && DoStart(first, AllAtOnce(0)) == Armed(first).(timer := true)
  {
    IdlePoll(Armed(first));
    hide Poll;
  }

  /** A poll that reads all that has arrived and writes it all; leaving bytes leave at once. */
  lemma WholePoll(s: State, leaving: nat)
    requires !s.finished && s.pipe.buffer == [] && s.pipe.pending == [] && s.pipe.encrypted == 0
    requires s.pipe.pos == 0 && 0 < s.pipe.limit == |s.pipe.stream| <= BUFFER_CAPACITY
    requires leaving <= |s.pipe.stream| && (!s.setup.sequentialSink ==> leaving == |s.pipe.stream|)
    ensures var n, p := |s.pipe.stream|, s.pipe; var a := Answers(Reads(n), Writes(n, leaving, 0), false);
      var q := p.(pos := n, written := p.written + n, flushed := p.flushed + p.stream[..leaving], pending := p.stream[leaving..]);
      Productive(s, a) && Poll(s, a) == Settle(s.(pipe := q), false)
  {
    hide Settle;
    var n, p := |s.pipe.stream|, AfterRead(s.pipe, |s.pipe.stream|);
    assert p.buffer == s.pipe.stream;
    assert p.pending + p.buffer[..n] == p.stream && p.buffer[n..] == [];
  }

  /** A started job that waits for the whole stream at once. */
  ghost predicate Waiting(s: State) {
    && s.started && !s.finished && s.timer && s.queuedPolls == 0 && !s.sourceEof
    && s.setup.Sensible() && s.setup.sequentialSource && !s.setup.tls
    && s.pipe.buffer == [] && s.pipe.pending == [] && s.pipe.flushed == [] && s.pipe.encrypted == 0
    && s.pipe.written == 0 && s.pipe.pos == 0 && 0 < |s.pipe.stream| <= BUFFER_CAPACITY
    && (s.size < 0 || s.size == |s.pipe.stream|)
  }

  lemma AwaitingWaits(first: State)
    requires Awaiting(first)
    ensures Waiting(Armed(first).(timer := true)) && Armed(first).pipe == first.pipe
    ensures Armed(first).setup == first.setup
  {
  }

  /** The whole stream is read and written by one poll of a timeout, and nothing leaves yet. */
  lemma TickReads(s: State)
    requires Waiting(s) && s.pipe.limit == |s.pipe.stream| && s.setup.sequentialSink
    ensures var p, n := s.pipe, |s.pipe.stream|;
      var e := Tick(Answers(Reads(n), Writes(n, 0, 0), false));
      FairStep(s, e, Report(s, 0).(pipe := p.(pos := n, written := n, pending := p.stream)))
  {
    hide Poll, Finish;
    WholePoll(Report(s, 0), 0);
    assert s.pipe.flushed + s.pipe.stream[..0] == s.pipe.flushed && s.pipe.stream[0..] == s.pipe.stream;
  }

  /** Once everything was sent, the close of the source ends the job. */
  lemma CloseEnds(s: State)
    requires s.started && !s.finished && !s.setup.tls && s.pipe.buffer == [] && s.pipe.Backlog() == 0
    requires s.pipe.pos == s.pipe.limit == |s.pipe.stream| && s.queuedPolls == 0
    ensures var e, t := SourceClosed(AllAtOnce(0)), Finish(s.(sourceEof := true, sawEof := true));
      FairStep(s, e, t) && t.finished && t.pipe == s.pipe
  {
    hide Poll, Finish;
    IdlePoll(s.(sourceEof := true));
    AfterFinish(s.(sourceEof := true, sawEof := true));
    FinishMovesNothing(s.(sourceEof := true, sawEof := true));
  }

  lemma AllArrives(s: State)
    requires Waiting(s) && s.pipe.limit == 0
    ensures var t := s.(pipe := s.pipe.(limit := |s.pipe.stream|));
      FairStep(s, Arrive(|s.pipe.stream|), t) && Waiting(t)
  {
  }

  lemma AllLeaves(s: State)
    requires s.pipe.flushed == [] && s.pipe.pending == s.pipe.stream != [] && s.pipe.encrypted == 0 && s.queuedPolls == 0
    ensures FairStep(s, Drain(|s.pipe.stream|, 0), s.(pipe := s.pipe.(flushed := s.pipe.stream, pending := [])))
  {
    assert [] + s.pipe.stream == s.pipe.stream;
  }

  lemma FairAwaiting(first: State)
    requires Awaiting(first)
    ensures var s := Armed(first).(timer := true);
      && FairStart(first, AllAtOnce(0), s) && Waiting(s)
      && s.pipe == first.pipe && s.setup == first.setup && s.pipe.limit == 0
  {
    hide DoStart, Productive;
    AwaitingStarts(first);
    AwaitingWaits(first);
  }

  /** A stream that is copied into a socket and closed at the end has a fair run as well. */
  lemma FairStreamCopy(first: State)
    requires Awaiting(first) && first.setup.sequentialSink
    ensures HasFairRun(first)
  {
    FairAwaiting(first);
    hide Awaiting, FairStep, FairStart, HasFairRun, Finish;
    var p, n := first.pipe, |first.pipe.stream|;
    var s0 := Armed(first).(timer := true);
    AllArrives(s0);
    var s1 := s0.(pipe := p.(limit := n));
    TickReads(s1);
    var q := p.(limit := n, pos := n, written := n, pending := p.stream);
    var s2 := Report(s1, 0).(pipe := q);
    AllLeaves(s2);
    var s3 := s2.(pipe := q.(flushed := p.stream, pending := []));
    CloseEnds(s3);
    var s4 := Finish(s3.(sourceEof := true, sawEof := true));
    var events := [Arrive(n), Tick(Answers(Reads(n), Writes(n, 0, 0), false)), Drain(n, 0), SourceClosed(AllAtOnce(0))];
    FairRun([s0, s1, s2, s3, s4], events, first, AllAtOnce(0), 2);
  }

  /** The announcement of a whole stream copies it into a file and ends the job. */
  lemma AnnouncementEnds(s: State)
    requires Waiting(s) && s.pipe.limit == s.size == |s.pipe.stream|
    requires !s.setup.sequentialSink && !s.setup.networkReply
    ensures var p, n := s.pipe, |s.pipe.stream|;
      var e := ReadyRead(AllAtOnce(n));
      var t := Finish(s.(pipe := p.(pos := n, written := n, flushed := p.stream), sawEof := true));
      FairStep(s, e, t) && t.finished && t.pipe.Backlog() == 0
  {
    hide Poll, Finish;
    var p, n := s.pipe, |s.pipe.stream|;
    WholePoll(s, n);
    assert p.flushed + p.stream[..n] == p.stream && p.stream[n..] == [];
    var t := s.(pipe := p.(pos := n, written := n, flushed := p.stream), sawEof := true);
    AfterFinish(t);
    FinishMovesNothing(t);
  }

  /** So has a stream of known size that is copied into a file and never closed. */
  lemma FairDownload(first: State)
    requires Awaiting(first) && first.size == |first.pipe.stream|
    requires !first.setup.sequentialSink && !first.setup.networkReply
    ensures HasFairRun(first)
  {
    FairAwaiting(first);
    assert Armed(first).size == first.size;
    hide Awaiting, FairStep, FairStart, HasFairRun, Finish;
    var p, n := first.pipe, |first.pipe.stream|;
    var s0 := Armed(first).(timer := true);
    AllArrives(s0);
    var s1 := s0.(pipe := p.(limit := n));
    AnnouncementEnds(s1);
    var s2 := Finish(s1.(pipe := p.(limit := n, pos := n, written := n, flushed := p.stream), sawEof := true));
    FairRun([s0, s1, s2], [Arrive(n), ReadyRead(AllAtOnce(n))], first, AllAtOnce(0), 0);
  }
}
