/**
 What every slot of a copy job does to the job and to its two devices, written as
 functions on values.  A run is any interleaving of the slots with the bytes that
 arrive at the source and the bytes that leave the sink.
 */
module CopyJobSpec {
  import opened Basics

  const BUFFER_CAPACITY: nat := 512 * 1024
  const BACKLOG_LIMIT: nat := 2 * 1024 * 1024

  datatype Failure =
    | SourceNotReadable
    | SinkNotWritable
    | ReadError
    | WriteError
    | EarlyEndOfOutput
    | TooMuchInput
    | EarlyEndOfInput

  /** What does not change during the life of a job. */
  datatype Setup = Setup(
    sequentialSource: bool,     // a socket or a network reply, as opposed to a file
    networkReply: bool,
    sequentialSink: bool,
    tls: bool)
  {
    // An encrypted sink is a socket, and a network reply is a stream.
    ghost predicate Sensible() {
      (tls ==> sequentialSink) && (networkReply ==> sequentialSource)
    }
  }

  /** The bytes in motion.  stream is everything the source will ever deliver: stream[..pos]
      was read, stream[pos..limit] is available.  The sink has accepted flushed + pending, of
      which flushed has left; encrypted counts the backlog that encryption adds. */
  datatype Pipe = Pipe(
    stream: seq<Byte>, pos: nat, limit: nat,
    buffer: seq<Byte>, written: int,
    flushed: seq<Byte>, pending: seq<Byte>, encrypted: nat)
  {
    function Available(): int { limit - pos }
    function Unread(): int { |stream| - pos }
    function Backlog(): nat { |pending| + encrypted }
    function Delivered(): seq<Byte> { flushed + pending }
  }

  datatype State = State(
    setup: Setup,
    pipe: Pipe,
    sourceOpen: bool,
    sinkOpen: bool,
    size: int,
    sourceEof: bool,
    started: bool,
    finished: bool,
    timer: bool,
    queuedPolls: nat,
    sawEof: bool,
    error: Option<Failure>,
    results: seq<Option<Failure>>,   // one entry per emitted result
    progress: seq<int>)              // reported amounts

  /** A job before start() has run. */
  ghost predicate Fresh(s: State) {
    && s.setup.Sensible()
    && s.pipe.pos == 0 && s.pipe.limit <= |s.pipe.stream|
    && (!s.setup.sequentialSource ==> s.pipe.limit == |s.pipe.stream|)
    && s.sourceOpen && s.sinkOpen
    && s.pipe.flushed == [] && s.pipe.pending == [] && s.pipe.encrypted == 0
    && s.pipe.buffer == [] && s.pipe.written == 0 && s.size >= -1
    && !s.sourceEof && !s.started && !s.finished && !s.timer && !s.sawEof
    && s.queuedPolls == 0
    && s.error.None? && s.results == [] && s.progress == []
  }

  // ---- answers of the devices ------------------------------------------------------

  datatype ReadAnswer = ReadFails | Reads(n: nat)

  /** A write takes n bytes; leaving bytes of the queue leave at once, and an encrypted
      sink is left with the given encrypted backlog. */
  datatype WriteAnswer = WriteFails | Writes(n: nat, leaving: nat, encrypted: nat)

  datatype Answers = Answers(read: ReadAnswer, write: WriteAnswer, hangsUp: bool)

  predicate WantsRead(p: Pipe) {
    |p.buffer| < BUFFER_CAPACITY && p.Backlog() < BACKLOG_LIMIT
  }

  /** A device never returns more than was asked for or than it has. */
  predicate CanAnswer(s: State, a: Answers) {
    var p := s.pipe;
    && p.pos <= p.limit <= |p.stream|
    && (WantsRead(p) && a.read.Reads? ==>
          a.read.n <= BUFFER_CAPACITY - |p.buffer| && a.read.n <= p.Available())
    && var buffered := |p.buffer| + if WantsRead(p) && a.read.Reads? then a.read.n else 0;
       (a.write.Writes? ==>
          && a.write.n <= buffered
          && a.write.leaving <= |p.pending| + a.write.n
          && (!s.setup.tls ==> a.write.encrypted == 0))
  }

  // ---- the bytes -------------------------------------------------------------------

  function AfterRead(p: Pipe, n: nat): Pipe
    requires p.pos + n <= |p.stream|
  {
    p.(buffer := p.buffer + p.stream[p.pos..p.pos + n], pos := p.pos + n)
  }

  function AfterWrite(p: Pipe, w: WriteAnswer): Pipe
    requires w.Writes? && w.n <= |p.buffer| && w.leaving <= |p.pending| + w.n
  {
    var queue := p.pending + p.buffer[..w.n];
    p.(flushed := p.flushed + queue[..w.leaving],
       pending := queue[w.leaving..],
       encrypted := w.encrypted,
       buffer := p.buffer[w.n..],
       written := p.written + w.n)
  }

  function AfterDrain(p: Pipe, n: nat, encrypted: nat): Pipe
    requires n <= |p.pending|
  {
    p.(flushed := p.flushed + p.pending[..n], pending := p.pending[n..], encrypted := encrypted)
  }

  // ---- slots -----------------------------------------------------------------------

  function EmitResult(s: State): State {
    s.(results := s.results + [s.error])
  }

  function Fail(s: State, f: Failure): State {
    EmitResult(s.(error := Some(f)))
  }

  /** The error a finishing job ends with. */
  function Verdict(p: Pipe, size: int, error: Option<Failure>): Option<Failure> {
    if size >= 0 && p.written < size then Some(EarlyEndOfInput)
    else if size >= 0 && p.written > size then Some(TooMuchInput)
    else if p.buffer != [] then Some(EarlyEndOfOutput)
    else error
  }

  function Finish(s: State): State {
    if s.finished then s
    else
      s.(finished := true,
         timer := false,
         progress := s.progress + [s.pipe.written],
         error := Verdict(s.pipe, s.size, s.error),
         results := s.results + [Verdict(s.pipe, s.size, s.error)],
         sourceOpen := false,
         sinkOpen := false)
  }

  predicate AtEof(s: State) {
    && s.pipe.Available() == 0
    && s.pipe.buffer == []
    && s.pipe.Backlog() == 0
    && (s.sourceEof || s.size == s.pipe.written)
  }

  predicate WantsRepoll(p: Pipe) {
    p.Available() > 0 && |p.buffer| != BUFFER_CAPACITY && p.Backlog() < BACKLOG_LIMIT
  }

  /** What poll does once the devices have been read from and written to. */
  function Settle(s: State, hangsUp: bool): State {
    if WantsRepoll(s.pipe) then s.(queuedPolls := s.queuedPolls + 1)
    else if !AtEof(s) then s
    else if s.setup.tls && !hangsUp then s.(sawEof := true)
    else Finish(s.(sawEof := true))
  }

  predicate ReadSucceeds(p: Pipe, a: Answers) {
    WantsRead(p) ==> a.read.Reads?
  }

  function ReadPhase(s: State, a: Answers): State
    requires CanAnswer(s, a) && ReadSucceeds(s.pipe, a)
  {
    if WantsRead(s.pipe) then s.(pipe := AfterRead(s.pipe, a.read.n)) else s
  }

  function WritePhase(s: State, a: Answers): State
    requires a.write.Writes? ==> a.write.n <= |s.pipe.buffer| && a.write.leaving <= |s.pipe.pending| + a.write.n
  {
    if s.pipe.buffer == [] then Settle(s, a.hangsUp)
    else if a.write.WriteFails? then Fail(s, WriteError)
    else Settle(s.(pipe := AfterWrite(s.pipe, a.write)), a.hangsUp)
  }

  function Poll(s: State, a: Answers): State
    requires CanAnswer(s, a)
  {
    if s.finished then s
    else if !ReadSucceeds(s.pipe, a) then Fail(s, ReadError)
    else WritePhase(ReadPhase(s, a), a)
  }

  function PollAtSourceClose(s: State, a: Answers): State
    requires CanAnswer(s, a)
  {
    if s.finished then s else Poll(s.(sourceEof := true), a)
  }

  /** The job as doStart leaves it just before its first poll. */
  function Armed(s: State): State {
    s.(sourceEof := s.sourceEof || !s.setup.sequentialSource,
       started := true,
       size := if s.size >= 0 then s.size
               else if !s.setup.sequentialSource then |s.pipe.stream| else -1)
  }

  function DoStart(s: State, a: Answers): State
    requires CanAnswer(s, a)
  {
    if !s.sourceOpen then Fail(s, SourceNotReadable)
    else if !s.sinkOpen then Fail(s, SinkNotWritable)
    else Poll(Armed(s), a).(timer := true)
  }

  /** Closing the source may announce the end of its stream to a started job at once. */
  function CloseSource(s: State, a: Answers, announces: bool): State
    requires CanAnswer(s, a)
  {
    var s1 := s.(sourceOpen := false);
    if s.sourceOpen && s.started && announces then PollAtSourceClose(s1, a) else s1
  }

  /** Closing the sink always tells a started job, before it takes effect. */
  function CloseSink(s: State): State {
    (if s.sinkOpen && s.started then Finish(s) else s).(sinkOpen := false)
  }

  function Close(s: State, a: Answers, announces: bool): State
    requires CanAnswer(s, a)
  {
    CloseSink(CloseSource(s, a, announces))
  }

  function Report(s: State, amount: int): State {
    s.(progress := s.progress + [amount])
  }

  function Timeout(s: State, a: Answers): State
    requires CanAnswer(s, a)
  {
    var s1 := Report(s, s.pipe.written - s.pipe.Backlog());
    if s.setup.sequentialSink then Poll(s1, a) else s1
  }

  // ---- runs ------------------------------------------------------------------------

  datatype Event =
    | Idle
    | Arrive(n: nat)                       // n more bytes become available
    | ReadyRead(a: Answers)
    | SourceClosed(a: Answers)             // the source delivered all it ever will
    | Drain(n: nat, encrypted: nat)        // n queued bytes leave the sink
    | DrainEncrypted(n: nat)
    | BytesWritten(a: Answers)
    | Tick(a: Answers)
    | RunQueuedPoll(a: Answers)
    | SinkClosing
    | Disconnected
  {
    predicate Polls() {
      ReadyRead? || SourceClosed? || BytesWritten? || Tick? || RunQueuedPoll?
    }
  }

  ghost predicate Enabled(s: State, e: Event) {
    && (e.Polls() ==> CanAnswer(s, e.a))
    && match e
       case Idle => true
       case Arrive(n) => s.pipe.limit + n <= |s.pipe.stream|
       case ReadyRead(_) => s.started && s.setup.sequentialSource && !s.setup.networkReply
       case SourceClosed(_) => s.started && s.pipe.limit == |s.pipe.stream|
       case Drain(n, enc) => 0 < n <= |s.pipe.pending| && (!s.setup.tls ==> enc == 0)
       case DrainEncrypted(n) => 0 < n <= s.pipe.encrypted
       case BytesWritten(_) => s.started && s.setup.sequentialSink
       case Tick(_) => s.timer
       case RunQueuedPoll(_) => s.queuedPolls > 0
       case SinkClosing => s.started
       case Disconnected => s.started && s.setup.tls
  }

  function Step(s: State, e: Event): State
    requires Enabled(s, e)
  {
    match e
    case Idle => s
    case Arrive(n) => s.(pipe := s.pipe.(limit := s.pipe.limit + n))
    case ReadyRead(a) => Poll(s, a)
    case SourceClosed(a) => PollAtSourceClose(s, a)
    case Drain(n, enc) => s.(pipe := AfterDrain(s.pipe, n, enc))
    case DrainEncrypted(n) => s.(pipe := s.pipe.(encrypted := s.pipe.encrypted - n))
    case BytesWritten(a) => Poll(s, a)
    case Tick(a) => Timeout(s, a)
    case RunQueuedPoll(a) => Poll(s.(queuedPolls := s.queuedPolls - 1), a)
    case SinkClosing => Finish(s)
    case Disconnected => Finish(s)
  }

  /** A run: a fresh job is started, then slots fire in any order. */
  ghost predicate IsRun(states: seq<State>, events: seq<Event>, first: State, a: Answers) {
    && |states| == |events| + 1
    && Fresh(first) && CanAnswer(first, a)
    && states[0] == DoStart(first, a)
    && forall i {:trigger events[i]} :: 0 <= i < |events| ==>
         Enabled(states[i], events[i]) && states[i + 1] == Step(states[i], events[i])
  }
}
