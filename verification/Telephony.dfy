/**
 Call notifications: per call, the plugin remembers the last event it sent, so that nothing
 is sent twice, and so that the end of a call cancels the right event.
 */
module Telephony {
  import opened Basics

  const RINGING: string := "ringing"
  const TALKING: string := "talking"

  /** A call as the modem describes it; contact is the name found for its number. */
  datatype Call = Call(path: string, state: string, number: string, contact: string)

  /** A packet sent to the other device; path is not sent, it tells which call it was for. */
  datatype Packet = Packet(path: string, event: string, cancel: bool, number: string, contact: string)

  datatype Action = Say(event: string) | Cancel

  /** What a call state asks for.  Outgoing calls are matched as "dealing". */
  function ActionFor(state: string): Option<Action> {
    if state == "incoming" then Some(Say(RINGING))
    else if state == "active" || state == "dealing" || state == "alerting" then Some(Say(TALKING))
    else if state == "disconnected" then Some(Cancel)
    else None
  }

  datatype Book = Book(sent: map<string, string>, log: seq<Packet>)

  function SayPacket(b: Book, event: string, c: Call): Book {
    if c.path in b.sent && b.sent[c.path] == event then b
    else Book(b.sent[c.path := event], b.log + [Packet(c.path, event, false, c.number, c.contact)])
  }

  function CancelPacket(b: Book, c: Call): Book {
    var last := if c.path in b.sent then b.sent[c.path] else TALKING;
    Book(b.sent - {c.path}, b.log + [Packet(c.path, last, true, c.number, c.contact)])
  }

  function StateChanged(b: Book, c: Call): Book {
    match ActionFor(c.state)
    case None => b
    case Some(Cancel) => CancelPacket(b, c)
    case Some(Say(event)) => SayPacket(b, event, c)
  }

  /** What ofono reports: a call appears, changes its state, or vanishes. */
  datatype Event = CallAdded(call: Call) | CallChanged(call: Call) | CallRemoved(path: string)

  function Step(b: Book, e: Event): Book {
    match e
    case CallAdded(c) => StateChanged(b, c)
    case CallChanged(c) => StateChanged(b, c)
    case CallRemoved(_) => b
  }

  class TelephonyPlugin {
    var sendCallState: map<string, string>
    var calls: map<string, Call>
    var log: seq<Packet>

    ghost function View(): Book
      reads this
    {
      Book(sendCallState, log)
    }

    constructor ()
      ensures View() == Book(map[], []) && calls == map[]
    {
      sendCallState, calls, log := map[], map[], [];
    }

    method SendTelephonyPacket(event: string, call: Call)
      modifies this`sendCallState, this`log
      ensures View() == SayPacket(old(View()), event, call)
    {
      if call.path in sendCallState && sendCallState[call.path] == event {
        return;
      }
      sendCallState := sendCallState[call.path := event];
      log := log + [Packet(call.path, event, false, call.number, call.contact)];
    }

    method SendCancelTelephonyPacket(call: Call)
      modifies this`sendCallState, this`log
      ensures View() == CancelPacket(old(View()), call)
    {
      var lastState := TALKING;
      if call.path in sendCallState {
        lastState := sendCallState[call.path];
      }
      sendCallState := sendCallState - {call.path};
      log := log + [Packet(call.path, lastState, true, call.number, call.contact)];
    }

    method OnCallStateChanged(call: Call)
      modifies this`sendCallState, this`log
      ensures View() == Step(old(View()), CallChanged(call))
    {
      if call.state == "incoming" {
        SendTelephonyPacket(RINGING, call);
      } else if call.state == "active" || call.state == "dealing" || call.state == "alerting" {
        SendTelephonyPacket(TALKING, call);
      } else if call.state == "disconnected" {
        SendCancelTelephonyPacket(call);
      }
    }

    method OnCallAdded(call: Call)
      modifies this
      ensures View() == Step(old(View()), CallAdded(call)) && calls == old(calls)[call.path := call]
    {
      OnCallStateChanged(call);
      calls := calls[call.path := call];
    }

    /** What was sent for the call stays remembered. */
    method OnCallRemoved(path: string)
      modifies this
      ensures View() == Step(old(View()), CallRemoved(path)) && calls == old(calls) - {path}
    {
      calls := calls - {path};
    }
  }

  // ---- what the log says -----------------------------------------------------------------------

  /** The plugin after any sequence of events about any calls. */
  function After(events: seq<Event>): Book {
    if events == [] then Book(map[], [])
    else Step(After(events[..|events| - 1]), events[|events| - 1])
  }

  /** The last event sent for a call since it was last cancelled. */
  function LastSent(log: seq<Packet>, path: string): Option<string> {
    if log == [] then None
    else
      var p := log[|log| - 1];
      if p.path != path then LastSent(log[..|log| - 1], path)
      else if p.cancel then None
      else Some(p.event)
  }

  /** Nothing is sent twice between cancels, and a cancel names the last event, or talking. */
  ghost predicate WellFormed(log: seq<Packet>) {
    forall i :: 0 <= i < |log| ==> Justified(log[..i], log[i])
  }

  ghost predicate Justified(before: seq<Packet>, p: Packet) {
    var last := LastSent(before, p.path);
    if p.cancel then p.event == (if last.Some? then last.value else TALKING)
    else last != Some(p.event) && (p.event == RINGING || p.event == TALKING)
  }

  ghost predicate Remembers(b: Book) {
    forall path :: LastSent(b.log, path) == if path in b.sent then Some(b.sent[path]) else None
  }

  lemma LastSentAfter(log: seq<Packet>, p: Packet, path: string)
    ensures LastSent(log + [p], path) ==
      if p.path != path then LastSent(log, path) else if p.cancel then None else Some(p.event)
  {
    assert (log + [p])[..|log|] == log;
  }

  lemma SendKeeps(b: Book, c: Book, p: Packet)
    requires Remembers(b) && WellFormed(b.log) && Justified(b.log, p)
    requires c.log == b.log + [p]
    requires c.sent == if p.cancel then b.sent - {p.path} else b.sent[p.path := p.event]
    ensures Remembers(c) && WellFormed(c.log)
  {
    forall path ensures LastSent(c.log, path) == if path in c.sent then Some(c.sent[path]) else None {
      LastSentAfter(b.log, p, path);
    }
    forall i | 0 <= i < |c.log| ensures Justified(c.log[..i], c.log[i]) {
      assert c.log[..i] == b.log[..i];
      if i == |b.log| { assert c.log[..i] == b.log; }
    }
  }

  /** For every run: what the plugin remembers is a function of the packets it sent, and those
      packets follow the rules. */
  lemma {:induction false} LogIsWellFormed(events: seq<Event>)
    ensures Remembers(After(events)) && WellFormed(After(events).log)
  {
    if events != [] {
      var e := events[|events| - 1];
      LogIsWellFormed(events[..|events| - 1]);
      var b := After(events[..|events| - 1]);
      if !e.CallRemoved? {
        var t := StateChanged(b, e.call);
        assert LastSent(b.log, e.call.path) == if e.call.path in b.sent then Some(b.sent[e.call.path]) else None;
        if t != b { SendKeeps(b, t, t.log[|b.log|]); }
      }
    }
  }

  // ---- which state sends what --------------------------------------------------------------------

  /** The states that are reported, by name. */
  predicate Relevant(state: string) {
    state in ["incoming", "active", "dealing", "alerting", "disconnected"]
  }

  /** The last relevant state that was reported for this path. */
  function LastState(events: seq<Event>, path: string): Option<string> {
    if events == [] then None
    else
      var e := events[|events| - 1];
      if !e.CallRemoved? && e.call.path == path && Relevant(e.call.state) then Some(e.call.state)
      else LastState(events[..|events| - 1], path)
  }

  lemma AfterOne(events: seq<Event>, e: Event)
    ensures After(events + [e]) == Step(After(events), e)
  {
    assert (events + [e])[..|events|] == events;
  }

  lemma LogStarts()
    ensures After([]).log == []
  {
  }

  /** What one more event adds to the packets of any run: an incoming call rings unless ringing was
      the last thing said for it and not cancelled; a call that is active, dialled or alerting talks
      under the same condition; a disconnected one is cancelled, by the name of what was said last;
      and nothing else sends anything.  The number and the contact are those of the call. */
  lemma EventSends(events: seq<Event>, e: Event)
    ensures var before, after := After(events).log, After(events + [e]).log;
      if e.CallRemoved? || !Relevant(e.call.state) then after == before
      else
        var c, last := e.call, LastSent(before, e.call.path);
        if c.state == "disconnected" then
          after == before + [Packet(c.path, if last.Some? then last.value else "talking", true, c.number, c.contact)]
        else
          var event := if c.state == "incoming" then "ringing" else "talking";
          after == if last == Some(event) then before
                   else before + [Packet(c.path, event, false, c.number, c.contact)]
  {
    hide After, LastSent, StateChanged, WellFormed;
    AfterOne(events, e);
    LogIsWellFormed(events);
    if !e.CallRemoved? { ReportSends(After(events), e.call, LastSent(After(events).log, e.call.path)); }
  }

  lemma ReportSends(b: Book, c: Call, last: Option<string>)
    requires last == if c.path in b.sent then Some(b.sent[c.path]) else None
    ensures StateChanged(b, c).log ==
      if !Relevant(c.state) then b.log
      else if c.state == "disconnected" then
        b.log + [Packet(c.path, if last.Some? then last.value else "talking", true, c.number, c.contact)]
      else
        var event := if c.state == "incoming" then "ringing" else "talking";
        if last == Some(event) then b.log else b.log + [Packet(c.path, event, false, c.number, c.contact)]
  {
  }

  /** So in every run the last packet of a path is told by the last relevant state of its calls: there
      is something to cancel exactly if that was not a disconnect, and it is ringing for an incoming
      call and talking for any other. */
  lemma {:induction false} LastStateDecides(events: seq<Event>, path: string)
    ensures LastSent(After(events).log, path) ==
      match LastState(events, path)
      case None => None
      case Some(state) =>
        if state == "disconnected" then None else Some(if state == "incoming" then "ringing" else "talking")
  {
    if events == [] {
      LogStarts();
    } else {
      var init, e := events[..|events| - 1], events[|events| - 1];
      LastStateDecides(init, path);
      EventSends(init, e);
      assert init + [e] == events;
      var before, after := After(init).log, After(events).log;
      if after != before { LastSentAfter(before, after[|before|], path); }
      hide After, LastSent;
    }
  }

  // ---- each call on its own ----------------------------------------------------------------------

  /** What the event asks for on behalf of this call. */
  function Asks(e: Event, path: string): seq<Action> {
    if !e.CallRemoved? && e.call.path == path && ActionFor(e.call.state).Some? then [ActionFor(e.call.state).value]
    else []
  }

  /** What the states of one call asked for, in order. */
  function Actions(events: seq<Event>, path: string): seq<Action> {
    if events == [] then []
    else Actions(events[..|events| - 1], path) + Asks(events[|events| - 1], path)
  }

  /** What was sent for one call: events, and cancels with the event they cancel. */
  function SentFor(log: seq<Packet>, path: string): seq<(string, bool)> {
    if log == [] then []
    else
      var p := log[|log| - 1];
      SentFor(log[..|log| - 1], path) + if p.path == path then [(p.event, p.cancel)] else []
  }

  /** The reference: an event is sent unless it repeats the action right before it, and a cancel
      repeats the event right before it, or says talking. */
  function Expected(actions: seq<Action>): seq<(string, bool)> {
    if actions == [] then []
    else
      var init, last := actions[..|actions| - 1], actions[|actions| - 1];
      Expected(init) + match last
                       case Say(e) => if init != [] && init[|init| - 1] == last then [] else [(e, false)]
                       case Cancel => [(if init != [] && init[|init| - 1].Say? then init[|init| - 1].event else TALKING, true)]
  }

  /** The action that counts as the last one said. */
  function LastSaid(actions: seq<Action>): Option<string> {
    if actions != [] && actions[|actions| - 1].Say? then Some(actions[|actions| - 1].event) else None
  }

  lemma SentForAfter(log: seq<Packet>, p: Packet, path: string)
    ensures SentFor(log + [p], path) == SentFor(log, path) + if p.path == path then [(p.event, p.cancel)] else []
  {
    assert (log + [p])[..|log|] == log;
  }

  lemma ExpectedAfter(actions: seq<Action>, a: Action)
    ensures Expected(actions + [a]) == Expected(actions)
      + if a.Cancel? then [(if LastSaid(actions).Some? then LastSaid(actions).value else TALKING, true)]
        else if LastSaid(actions) == Some(a.event) then [] else [(a.event, false)]
    ensures LastSaid(actions + [a]) == if a.Say? then Some(a.event) else None
  {
    assert (actions + [a])[..|actions|] == actions;
  }

  function Remembered(b: Book, path: string): Option<string> {
    if path in b.sent then Some(b.sent[path]) else None
  }

  lemma SameCall(b: Book, c: Call, a: Action, actions: seq<Action>)
    requires ActionFor(c.state) == Some(a)
    requires SentFor(b.log, c.path) == Expected(actions) && Remembered(b, c.path) == LastSaid(actions)
    ensures SentFor(StateChanged(b, c).log, c.path) == Expected(actions + [a])
    ensures Remembered(StateChanged(b, c), c.path) == LastSaid(actions + [a])
  {
    ExpectedAfter(actions, a);
    var t := StateChanged(b, c);
    if t.log != b.log { SentForAfter(b.log, t.log[|b.log|], c.path); }
    hide Expected, SentFor;
  }

  lemma OtherCall(b: Book, c: Call, path: string)
    requires c.path != path || ActionFor(c.state).None?
    ensures SentFor(StateChanged(b, c).log, path) == SentFor(b.log, path)
    ensures Remembered(StateChanged(b, c), path) == Remembered(b, path)
  {
    var t := StateChanged(b, c);
    if t.log != b.log { SentForAfter(b.log, t.log[|b.log|], path); }
    hide SentFor;
  }

  /** Calls do not influence each other: what is sent for a call depends only on its own states,
      and is what the reference says; and the plugin remembers its last action. */
  lemma {:induction false} EachCallAlone(events: seq<Event>, path: string)
    ensures SentFor(After(events).log, path) == Expected(Actions(events, path))
    ensures Remembered(After(events), path) == LastSaid(Actions(events, path))
  {
    if events != [] {
      var init, e := events[..|events| - 1], events[|events| - 1];
      EachCallAlone(init, path);
      hide SentFor, Expected, StateChanged;
      if Asks(e, path) != [] {
        SameCall(After(init), e.call, ActionFor(e.call.state).value, Actions(init, path));
      } else {
        if !e.CallRemoved? { OtherCall(After(init), e.call, path); }
        assert Actions(events, path) == Actions(init, path);
      }
    }
  }

  /** A call that appears as incoming rings on the other device exactly if the last thing its
      path asked for was not ringing.  Removing a call does not count. */
  lemma NewCallRings(events: seq<Event>, c: Call)
    requires c.state == "incoming"
    ensures After(events + [CallAdded(c)]).log == After(events).log + [Packet(c.path, RINGING, false, c.number, c.contact)]
       <==> LastSaid(Actions(events, c.path)) != Some(RINGING)
    ensures After(events + [CallAdded(c)]).log == After(events).log
       <==> LastSaid(Actions(events, c.path)) == Some(RINGING)
  {
    EachCallAlone(events, c.path);
    assert (events + [CallAdded(c)])[..|events|] == events;
  }

  /** So a call that vanishes while it rings silences the next incoming call with its path. */
  lemma VanishedCallSilences(c: Call, d: Call)
    requires c.state == d.state == "incoming" && c.path == d.path
    ensures After([CallAdded(c), CallRemoved(c.path), CallAdded(d)]).log
         == [Packet(c.path, RINGING, false, c.number, c.contact)]
  {
    var e1, e2, e3 := CallAdded(c), CallRemoved(c.path), CallAdded(d);
    AfterOne([], e1);
    AfterOne([e1], e2);
    AfterOne([e1, e2], e3);
    assert [] + [e1] == [e1] && [e1] + [e2] == [e1, e2] && [e1, e2] + [e3] == [e1, e2, e3];
  }
}
