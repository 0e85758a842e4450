/**
 Any sequence of plugins coming and going, the model switching between them, and packets
 arriving at any of them.
 */
module MprisRuns {
  import opened Basics
  import opened MprisRows

  datatype System = System(plugins: map<nat, set<string>>, attached: Option<nat>, view: View)

  datatype Event =
    | PluginLoaded(id: nat)
    | PluginGone(id: nat)
    | SetPlugin(next: Option<nat>)
    | Packet(id: nat, list: seq<string>, added: seq<string>, removed: seq<string>)

  ghost predicate Enabled(s: System, e: Event) {
    match e
    case PluginLoaded(id) => id !in s.plugins
    case PluginGone(id) => id in s.plugins
    case SetPlugin(next) => next.Some? ==> next.value in s.plugins
    case Packet(id, list, added, removed) =>
      && id in s.plugins
      && Enumerates(added, Names(list) - s.plugins[id]) && Enumerates(removed, s.plugins[id] - Names(list))
  }

  function ResetTo(v: View, rows: seq<string>): View {
    View(rows, v.log + [Reset(rows)])
  }

  ghost function Step(s: System, e: Event): System
    requires Enabled(s, e)
  {
    match e
    case PluginLoaded(id) => s.(plugins := s.plugins[id := {}])
    case PluginGone(id) =>
      var t := s.(plugins := s.plugins - {id});
      if s.attached == Some(id) then t.(attached := None, view := ResetTo(s.view, [])) else t
    case SetPlugin(next) =>
      if next == s.attached then s
      else s.(attached := next,
              view := ResetTo(s.view, if next.Some? then Sorted(s.plugins[next.value]) else []))
    case Packet(id, list, added, removed) =>
      var t := s.(plugins := s.plugins[id := Names(list)]);
      if s.attached == Some(id) then t.(view := RemoveAll(AddAll(s.view, added), removed)) else t
  }

  ghost function Current(s: System): set<string>
    requires s.attached.Some? ==> s.attached.value in s.plugins
  {
    if s.attached.Some? then s.plugins[s.attached.value] else {}
  }

  ghost predicate Agrees(s: System) {
    (s.attached.Some? ==> s.attached.value in s.plugins) && Shows(s.view, Current(s))
  }

  lemma StepAgrees(s: System, e: Event)
    requires Agrees(s) && Enabled(s, e)
    ensures Agrees(Step(s, e))
  {
    hide Sorted, AddAll, RemoveAll;
    match e
    case PluginLoaded(id) =>
    case PluginGone(id) =>
      ReplayOne(s.view.log, Reset([]));
      SortedNone();
    case SetPlugin(next) =>
      var rows := if next.Some? then Sorted(s.plugins[next.value]) else [];
      ReplayOne(s.view.log, Reset(rows));
      SortedNone();
    case Packet(id, list, added, removed) =>
      if s.attached == Some(id) { PacketShows(s.view, s.plugins[id], Names(list), added, removed); }
  }

  lemma SortedNone()
    ensures Sorted({}) == []
  {
    NoNames(Sorted({}));
  }

  ghost predicate IsRun(states: seq<System>, events: seq<Event>) {
    && |states| == |events| + 1
    && states[0] == System(map[], None, View([], []))
    && forall i {:trigger events[i]} :: 0 <= i < |events| ==>
         Enabled(states[i], events[i]) && states[i + 1] == Step(states[i], events[i])
  }

  /** After every event the rows are strictly sorted, are exactly the players of the attached
      plugin, and are what an observer reconstructs from the notices alone. */
  lemma {:induction false} RowsAgree(states: seq<System>, events: seq<Event>, i: nat)
    requires IsRun(states, events) && i < |states|
    ensures Agrees(states[i])
    ensures StrictlySorted(states[i].view.rows) && Ascending(states[i].view.rows)
    ensures Names(states[i].view.rows) == Current(states[i])
    ensures Replay(states[i].view.log) == states[i].view.rows
  {
    if i == 0 {
      SortedNone();
    } else {
      RowsAgree(states, events, i - 1);
      hide Step, Sorted;
      StepAgrees(states[i - 1], events[i - 1]);
    }
    SortedAscends(states[i].view.rows);
  }

  lemma OneRow(name: string)
    ensures RemoveAll(AddAll(View([], [Reset([])]), [name]), []).rows == [name]
  {
    var v := View([], [Reset([])]);
    assert [name][..0] == [];
    assert Add([], name) == [name];
  }

  /** A row can dangle: a plugin with one player is shown, and a packet empties its list; before
      the removal is signalled, the row names a player that the plugin no longer has. */
  lemma RowDangles(name: string)
    ensures exists states: seq<System>, events: seq<Event>, e: Event ::
      && IsRun(states, events)
      && var s := states[|states| - 1];
      && e.Packet? && Enabled(s, e) && s.attached == Some(e.id)
      && RemoveAll(AddAll(s.view, e.added[..0]), e.removed[..0]).rows == [name] && name !in Names(e.list)
  {
    hide Sorted, AddAll, RemoveAll, Replay;
    SortedNone();
    OneRow(name);
    OneName(name);
    NoNames([]);
    var v := View([], [Reset([])]);
    var w := RemoveAll(AddAll(v, [name]), []);
    var s0, s1 := System(map[], None, View([], [])), System(map[0 := {}], None, View([], []));
    var s2, s3 := System(map[0 := {}], Some(0), v), System(map[0 := {name}], Some(0), w);
    var events := [PluginLoaded(0), SetPlugin(Some(0)), Packet(0, [name], [name], [])];
    var states := [s0, s1, s2, s3];
    assert map[0 := {}][0 := {name}] == map[0 := {name}];
    assert Enabled(s2, events[2]) by { assert {name} - {} == {name} && {} - {name} == {}; }
    assert Step(s2, events[2]) == s3;
    assert IsRun(states, events);
    var e := Packet(0, [], [], [name]);
    assert Enabled(s3, e) by { assert {} - {name} == {} && {name} - {} == {name}; }
    AddNone(w);
    assert e.added[..0] == [] && e.removed[..0] == [];
    assert states[|states| - 1] == s3;
  }

  lemma OneName(name: string)
    ensures Names([name]) == {name}
  {
    LastName([name]);
    NoNames([]);
    assert [name][..0] == [];
  }

  lemma AddNone(v: View)
    ensures RemoveAll(AddAll(v, []), []) == v
  {
  }
}
