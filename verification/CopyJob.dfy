/**
 The copy job itself: fields updated by slots, a fixed array compacted in place, and a
 finish() that is entered again while it closes the devices.  Every slot is proved to do
 exactly what CopyJobSpec says.
 */
module CopyJobs {
  import opened Basics
  import opened CopyJobSpec

  class SourceDevice {
    ghost const stream: seq<Byte>      // everything the device will ever deliver
    const sequential: bool
    const networkReply: bool
    var content: seq<Byte>             // what is available to read
    const fileSize: nat                // meaningful for a file only
    ghost var pos: nat
    var open: bool

    ghost predicate Valid() reads this {
      && pos + |content| <= |stream| && content == stream[pos..pos + |content|]
      && (!sequential ==> fileSize == |stream|)
    }

    constructor (stream: seq<Byte>, available: nat, sequential: bool, networkReply: bool)
      requires available <= |stream|
      ensures Valid() && pos == 0 && |content| == available && open
      ensures this.stream == stream && this.sequential == sequential && this.networkReply == networkReply
    {
      this.stream, this.sequential, this.networkReply := stream, sequential, networkReply;
      content, fileSize, pos, open := stream[..available], |stream|, 0, true;
    }

    /** Reads a.n bytes into buf[start..], or fails with -1. */
    method Read(buf: array<Byte>, start: nat, a: ReadAnswer) returns (bytes: int)
      requires Valid() && start <= buf.Length
      requires a.Reads? ==> a.n <= buf.Length - start && a.n <= |content|
      modifies `content, `pos, buf
      ensures Valid()
      ensures a.ReadFails? ==> bytes == -1 && pos == old(pos) && content == old(content) && buf[..] == old(buf[..])
      ensures a.Reads? ==>
        && bytes == a.n && pos == old(pos) + a.n && content == old(content)[a.n..]
        && buf[..start] == old(buf[..start])
        && buf[start..start + a.n] == stream[old(pos)..old(pos) + a.n]
    {
      if a.ReadFails? { return -1; }
      forall i | 0 <= i < a.n { buf[start + i] := content[i]; }
      assert stream[pos..pos + a.n] == content[..a.n];
      assert buf[start..start + a.n] == content[..a.n];
      assert buf[..start] == old(buf[..start]);
      assert stream[pos + a.n..pos + |content|] == content[a.n..];
      content := content[a.n..];
      pos := pos + a.n;
      return a.n;
    }
  }

  class SinkDevice {
    const sequential: bool
    const tls: bool
    var flushed: seq<Byte>
    var pending: seq<Byte>
    var encrypted: nat
    var open: bool

    ghost predicate Valid() reads this {
      (tls ==> sequential) && (!tls ==> encrypted == 0)
    }

    constructor (sequential: bool, tls: bool)
      requires tls ==> sequential
      ensures Valid()
      ensures this.sequential == sequential && this.tls == tls
      ensures flushed == [] && pending == [] && encrypted == 0 && open
    {
      this.sequential, this.tls := sequential, tls;
      flushed, pending, encrypted, open := [], [], 0, true;
    }

    /** Takes the first w.n bytes of buf[..size], or fails with -1. */
    method Write(buf: array<Byte>, size: nat, w: WriteAnswer) returns (bytes: int)
      requires Valid() && size <= buf.Length
      requires w.Writes? ==> w.n <= size && w.leaving <= |pending| + w.n && (!tls ==> w.encrypted == 0)
      modifies `flushed, `pending, `encrypted
      ensures Valid()
      ensures w.WriteFails? ==>
        bytes == -1 && flushed == old(flushed) && pending == old(pending) && encrypted == old(encrypted)
      ensures w.Writes? ==>
        && bytes == w.n && encrypted == w.encrypted
        && var queue := old(pending) + buf[..w.n];
           flushed == old(flushed) + queue[..w.leaving] && pending == queue[w.leaving..]
    {
      if w.WriteFails? { return -1; }
      var queue := pending + buf[..w.n];
      flushed := flushed + queue[..w.leaving];
      pending := queue[w.leaving..];
      encrypted := w.encrypted;
      return w.n;
    }

    /** n queued bytes leave; an encrypted sink is left with the given encrypted backlog. */
    method Drain(n: nat, enc: nat)
      requires Valid() && n <= |pending| && (!tls ==> enc == 0)
      modifies `flushed, `pending, `encrypted
      ensures Valid() && flushed == old(flushed) + old(pending)[..n] && pending == old(pending)[n..]
      ensures encrypted == enc
    {
      flushed, pending, encrypted := flushed + pending[..n], pending[n..], enc;
    }
  }

  /** std::move of buf[from..size] to the front of the same array. */
  method MoveToFront(buf: array<Byte>, from: nat, size: nat)
    requires from <= size <= buf.Length
    modifies buf
    ensures buf[..size - from] == old(buf[from..size])
  {
    var i := 0;
    while i < size - from
      invariant 0 <= i <= size - from
      invariant forall k :: 0 <= k < i ==> buf[k] == old(buf[from + k])
      invariant forall k :: i <= k < buf.Length ==> buf[k] == old(buf[k])
    {
      buf[i] := buf[from + i];
      i := i + 1;
    }
  }

  lemma AnswersStay(s: State, t: State, a: Answers)
    requires CanAnswer(s, a) && t.pipe == s.pipe && t.setup == s.setup
    ensures CanAnswer(t, a)
  {
  }

  lemma ArmedAnswers(s: State, a: Answers)
    requires CanAnswer(s, a)
    ensures CanAnswer(Armed(s), a)
  {
  }

  lemma NoAnswers(s: State)
    requires s.pipe.pos <= s.pipe.limit <= |s.pipe.stream|
    ensures CanAnswer(s, Answers(ReadFails, WriteFails, false))
  {
  }

  lemma FinishFinished(s: State)
    requires s.finished
    ensures Finish(s) == s
  {
  }

  lemma FinishThenClose(s: State, t: State)
    requires !s.finished && CanAnswer(t, Answers(ReadFails, WriteFails, false))
    requires t == s.(finished := true, timer := false, progress := s.progress + [s.pipe.written],
                     error := Verdict(s.pipe, s.size, s.error),
                     results := s.results + [Verdict(s.pipe, s.size, s.error)])
    ensures Close(t, Answers(ReadFails, WriteFails, false), true) == Finish(s)
  {
  }

  class CopyJob {
    const source: SourceDevice
    const sink: SinkDevice
    const buffer: array<Byte>
    var bufferSize: nat
    var written: int
    var size: int
    var sourceEof: bool
    var started: bool
    var finished: bool
    var timer: bool
    var queuedPolls: nat
    var sawEof: bool
    var error: Option<Failure>
    var results: seq<Option<Failure>>
    var progress: seq<int>

    ghost predicate Valid()
      reads this, source, sink
    {
      && source.Valid() && sink.Valid()
      && buffer.Length == BUFFER_CAPACITY && bufferSize <= buffer.Length
    }

    ghost function PipeView(): (p: Pipe)
      reads this`bufferSize, this`written, source`content, source`pos
      reads sink`flushed, sink`pending, sink`encrypted, buffer
      requires bufferSize <= buffer.Length
      ensures p.written == written && p.stream == source.stream && |p.buffer| == bufferSize
      ensures p.pos == source.pos && p.limit == source.pos + |source.content|
      ensures p.pending == sink.pending && p.encrypted == sink.encrypted
    {
      Pipe(source.stream, source.pos, source.pos + |source.content|,
           buffer[..bufferSize], written, sink.flushed, sink.pending, sink.encrypted)
    }

    ghost function View(): State
      reads this, source, sink, buffer
      requires bufferSize <= buffer.Length
    {
      State(Setup(source.sequential, source.networkReply, sink.sequential, sink.tls),
            PipeView(), source.open, sink.open, size, sourceEof, started, finished, timer, queuedPolls,
            sawEof, error, results, progress)
    }

    constructor (source: SourceDevice, sink: SinkDevice, size: int)
      requires source.Valid() && sink.Valid() && size >= -1
      ensures Valid() && this.source == source && this.sink == sink && fresh(buffer)
      ensures View().size == size && results == [] && progress == [] && !started && !finished && !timer
      ensures source.pos == 0 && source.open && sink.open
           && sink.flushed == [] && sink.pending == [] && sink.encrypted == 0
           && (!source.sequential ==> |source.content| == |source.stream|)
           && View().setup.Sensible()
           ==> Fresh(View())
    {
      this.source, this.sink, this.size := source, sink, size;
      buffer := new Byte[BUFFER_CAPACITY];
      bufferSize, written := 0, 0;
      sourceEof, started, finished, timer, sawEof := false, false, false, false, false;
      queuedPolls, error, results, progress := 0, None, [], [];
    }

    method BytesToWrite() returns (n: nat)
      requires Valid()
      ensures n == View().pipe.Backlog()
    {
      n := |sink.pending|;
      if sink.tls {
        n := n + sink.encrypted;
      }
    }

    /** The view, field by field. */
    lemma JobFields()
      requires Valid()
      ensures View().sourceOpen == source.open && View().sinkOpen == sink.open
      ensures View().started == started && View().finished == finished && View().timer == timer
      ensures View().pipe == PipeView() && View().size == size
      ensures View().error == error && View().results == results && View().progress == progress
    {
      hide PipeView;
    }

    /** Opening or closing a device changes one flag of the view. */
    twostate lemma SourceFlagOnly()
      requires old(Valid()) && Valid() && unchanged(this, buffer, sink, source`content, source`pos)
      ensures View() == old(View()).(sourceOpen := source.open)
    {
      hide PipeView;
    }

    twostate lemma SinkFlagOnly()
      requires old(Valid()) && Valid() && unchanged(this, buffer, source, sink`flushed, sink`pending, sink`encrypted)
      ensures View() == old(View()).(sinkOpen := sink.open)
    {
      hide PipeView;
    }

    /** Its channel may announce the end of the stream to a started job at once. */
    method CloseSource(a: Answers, announces: bool)
      requires Valid() && CanAnswer(View(), a)
      modifies if finished then {} else {this, source, sink, buffer}, source`open
      ensures Valid() && View() == CopyJobSpec.CloseSource(old(View()), a, announces)
      decreases if finished then 0 else 1, 5
    {
      hide View, PipeView, CanAnswer, CopyJobSpec.PollAtSourceClose;
      JobFields();
      ghost var s := View();
      var announced := source.open && started && announces;
      source.open := false;
      SourceFlagOnly();
      AnswersStay(s, View(), a);
      if announced {
        PollAtSourceClose(a);
      }
    }

    /** It tells a started job that it is about to close, and that ends the job. */
    method CloseSink()
      requires Valid()
      modifies if finished then {} else {this}, source`open, sink`open
      ensures Valid() && View() == CopyJobSpec.CloseSink(old(View()))
      decreases if finished then 0 else 1, 5
    {
      hide View, PipeView, CopyJobSpec.Finish;
      JobFields();
      if sink.open && started {
        Finish();
      }
      label Open:
      sink.open := false;
      SinkFlagOnly@Open();
    }

    /** Both devices' signals come back to the job before this returns. */
    method Close(a: Answers, announces: bool)
      requires Valid() && CanAnswer(View(), a)
      modifies if finished then {} else {this, source, sink, buffer}, source`open, sink`open
      ensures Valid() && View() == CopyJobSpec.Close(old(View()), a, announces)
      decreases if finished then 0 else 1, 6
    {
      hide View, PipeView, CanAnswer, CopyJobSpec.CloseSource, CopyJobSpec.CloseSink;
      CloseSource(a, announces);
      CloseSink();
    }

    method DoKill(a: Answers, announces: bool) returns (killed: bool)
      requires Valid() && CanAnswer(View(), a)
      modifies if finished then {} else {this, source, sink, buffer}, source`open, sink`open
      ensures Valid() && killed && View() == CopyJobSpec.Close(old(View()), a, announces)
    {
      Close(a, announces);
      return true;
    }

    twostate lemma OnlyConcluded()
      requires old(Valid()) && Valid() && unchanged(source, sink, buffer)
      requires unchanged(`bufferSize, `written, `size, `sourceEof, `started, `queuedPolls, `sawEof)
      ensures View() == old(View()).(finished := finished, timer := timer, progress := progress,
                                     error := error, results := results)
    {
      hide PipeView;
    }

    /** The error a job ends with; a later check overrides an earlier one. */
    method FinalError() returns (e: Option<Failure>)
      requires Valid()
      ensures e == Verdict(PipeView(), size, error)
    {
      e := error;
      if bufferSize != 0 {
        e := Some(EarlyEndOfOutput);
      }
      if size >= 0 && written > size {
        e := Some(TooMuchInput);
      }
      if size >= 0 && written < size {
        e := Some(EarlyEndOfInput);
      }
    }

    method Finish()
      requires Valid()
      modifies if finished then {} else {this}, source`open, sink`open
      ensures Valid() && View() == CopyJobSpec.Finish(old(View()))
      decreases if finished then 0 else 1, 0
    {
      hide PipeView, View, CopyJobSpec.Close, CopyJobSpec.Finish, CanAnswer, Verdict;
      ghost var s := View();
      JobFields();
      if finished {
        FinishFinished(s);
        return;
      }
      finished := true;
      timer := false;
      progress := progress + [written];
      error := FinalError();
      results := results + [error];
      OnlyConcluded();
      // whatever the devices would answer, the job no longer asks
      NoAnswers(View());
      FinishThenClose(s, View());
      Close(Answers(ReadFails, WriteFails, false), true);
    }

    ghost predicate CanWrite(w: WriteAnswer)
      reads this, sink
      requires w.Writes?
    {
      && w.n <= bufferSize && w.leaving <= |sink.pending| + w.n
      && (!sink.tls ==> w.encrypted == 0)
    }

    /** Reads behind the bytes that are buffered already. */
    method Fill(a: ReadAnswer) returns (bytes: int)
      requires Valid() && bufferSize < buffer.Length
      requires a.Reads? ==> a.n <= buffer.Length - bufferSize && a.n <= |source.content|
      modifies this`bufferSize, source`content, source`pos, buffer
      ensures Valid() && (bytes == -1 <==> a.ReadFails?)
      ensures PipeView() == if a.Reads? then AfterRead(old(PipeView()), a.n) else old(PipeView())
      ensures bufferSize == old(bufferSize) + if a.Reads? then a.n else 0
    {
      bytes := source.Read(buffer, bufferSize, a);
      if bytes != -1 {
        assert buffer[..bufferSize + bytes] == old(buffer[..bufferSize]) + buffer[bufferSize..bufferSize + bytes];
        bufferSize := bufferSize + bytes;
      }
    }

    /** The first part of poll: false if the read failed. */
    method ReadSome(a: Answers) returns (ok: bool)
      requires Valid() && CanAnswer(View(), a)
      modifies this`bufferSize, this`error, this`results, source`content, source`pos, buffer
      ensures Valid() && ok == ReadSucceeds(old(PipeView()), a)
      ensures ok ==> error == old(error) && results == old(results)
      ensures ok ==> PipeView() ==
                     if WantsRead(old(PipeView())) then AfterRead(old(PipeView()), a.read.n) else old(PipeView())
      ensures ok && a.write.Writes? ==> CanWrite(a.write)
      ensures !ok ==> PipeView() == old(PipeView())
      ensures !ok ==> error == Some(ReadError) && results == old(results) + [error]
    {
      hide PipeView, AfterRead;
      var backlog := BytesToWrite();
      if bufferSize < buffer.Length && backlog < BACKLOG_LIMIT {
        var bytes := Fill(a.read);
        if bytes == -1 {
          error := Some(ReadError);
          results := results + [error];
          return false;
        }
      }
      return true;
    }

    /** The second part of poll: false if the write failed. */
    method WriteSome(a: Answers) returns (ok: bool)
      requires Valid()
      requires a.write.Writes? ==> CanWrite(a.write)
      modifies this`bufferSize, this`written, this`error, this`results
      modifies sink`flushed, sink`pending, sink`encrypted, buffer
      ensures Valid() && ok == (old(bufferSize) == 0 || a.write.Writes?)
      ensures ok ==> error == old(error) && results == old(results)
      ensures ok ==> PipeView() ==
                     if old(bufferSize) == 0 then old(PipeView()) else AfterWrite(old(PipeView()), a.write)
      ensures !ok ==> PipeView() == old(PipeView())
      ensures !ok ==> error == Some(WriteError) && results == old(results) + [error]
    {
      if bufferSize != 0 {
        var bytes := sink.Write(buffer, bufferSize, a.write);
        if bytes == -1 {
          error := Some(WriteError);
          results := results + [error];
          return false;
        }
        assert buffer[..bufferSize][..bytes] == buffer[..bytes];
        assert buffer[..bufferSize][bytes..] == buffer[bytes..bufferSize];
        MoveToFront(buffer, bytes, bufferSize);
        bufferSize := bufferSize - bytes;
        written := written + bytes;
      }
      return true;
    }

    /** The last part of poll: poll again, or end the job, or wait for a signal. */
    method SettleDown(hangsUp: bool)
      requires Valid() && !finished
      modifies this, source`open, sink`open
      ensures Valid() && View() == Settle(old(View()), hangsUp)
      decreases 1, 1
    {
      hide PipeView;
      var backlog := BytesToWrite();
      if |source.content| > 0 && bufferSize != buffer.Length && backlog < BACKLOG_LIMIT {
        queuedPolls := queuedPolls + 1;
      }
      if |source.content| == 0 && bufferSize == 0 && backlog == 0 && (sourceEof || size == written) {
        sawEof := true;
        // an encrypted socket is asked to disconnect and may report that only later
        if !sink.tls || hangsUp {
          Finish();
        }
      }
    }

    twostate lemma OnlyMoved()
      requires old(Valid()) && Valid() && unchanged(source`open, sink`open)
      requires unchanged(`size, `sourceEof, `started, `finished, `timer, `queuedPolls, `sawEof, `progress)
      ensures View() == old(View()).(pipe := PipeView(), error := error, results := results)
    {
      hide PipeView;
    }

    method WriteAndSettle(a: Answers)
      requires Valid() && !finished
      requires a.write.Writes? ==> CanWrite(a.write)
      modifies this, sink, buffer, source`open
      ensures Valid() && View() == WritePhase(old(View()), a)
      decreases 1, 2
    {
      hide View, PipeView, Settle, AfterWrite, CanWrite;
      JobFields();
      var ok := WriteSome(a);
      OnlyMoved();
      if ok {
        JobFields();
        SettleDown(a.hangsUp);
      }
    }

    method Poll(a: Answers)
      requires Valid() && CanAnswer(View(), a)
      modifies if finished then {} else {this, source, sink, buffer}
      ensures Valid() && View() == CopyJobSpec.Poll(old(View()), a)
      decreases if finished then 0 else 1, 3
    {
      hide View, PipeView, WritePhase, AfterRead, CanWrite, CanAnswer, WantsRead, ReadSucceeds;
      JobFields();
      if finished {
        return;
      }
      var ok := ReadSome(a);
      OnlyMoved();
      if ok {
        WriteAndSettle(a);
      }
    }

    method PollAtSourceClose(a: Answers)
      requires Valid() && CanAnswer(View(), a)
      modifies if finished then {} else {this, source, sink, buffer}
      ensures Valid() && View() == CopyJobSpec.PollAtSourceClose(old(View()), a)
      decreases if finished then 0 else 1, 4
    {
      hide CopyJobSpec.Poll;
      if finished {
        return;
      }
      sourceEof := true;
      Poll(a);
    }

    method Arm()
      requires Valid()
      modifies this`sourceEof, this`started, this`size
      ensures Valid() && View() == Armed(old(View()))
    {
      if !source.sequential {
        sourceEof := true;
      }
      started := true;
      size := if size >= 0 then size else if !source.sequential then source.fileSize else -1;
    }

    method DoStart(a: Answers)
      requires Valid() && CanAnswer(View(), a)
      modifies this, source, sink, buffer
      ensures Valid() && View() == CopyJobSpec.DoStart(old(View()), a)
    {
      hide View, PipeView, CanAnswer, CopyJobSpec.Poll, Armed;
      JobFields();
      if !source.open {
        error := Some(SourceNotReadable);
        results := results + [error];
        OnlyConcluded();
      } else if !sink.open {
        error := Some(SinkNotWritable);
        results := results + [error];
        OnlyConcluded();
      } else {
        ArmedAnswers(View(), a);
        Arm();
        Poll(a);
        JobFields();
        label Polled:
        timer := true;
        OnlyConcluded@Polled();
      }
    }

    method Timeout(a: Answers)
      requires Valid() && CanAnswer(View(), a)
      modifies this, source, sink, buffer
      ensures Valid() && View() == CopyJobSpec.Timeout(old(View()), a)
    {
      hide PipeView, CopyJobSpec.Poll;
      var backlog := BytesToWrite();
      progress := progress + [written - backlog];
      if sink.sequential {
        Poll(a);
      }
    }
  }
}
