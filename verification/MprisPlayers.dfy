/**
 The plugin that owns the players and the list model that shows them, as objects: the model
 connects to one plugin at a time, and packets reach the model through the plugin's signals.
 */
module MprisPlayers {
  import opened MprisRows

  datatype MprisPlayer = MprisPlayer(name: string)

  class MprisPlayersModel {
    var plugin: MprisRemotePlugin?
    var rows: seq<string>
    var log: seq<Notice>

    ghost function Shown(): View
      reads this
    {
      View(rows, log)
    }

    /** The rows are the sorted players of the plugin, which knows its listener. */
    ghost predicate Valid()
      reads this, plugin
    {
      && Shows(Shown(), if plugin == null then {} else plugin.players.Keys)
      && (plugin != null ==> plugin.listener == this)
    }

    constructor ()
      ensures Valid() && plugin == null && rows == [] && log == []
    {
      plugin, rows, log := null, [], [];
      new;
      SortedEmpty();
    }

    /** std::lower_bound: halves the range that may still hold the position. */
    method FindPosition(name: string) returns (first: nat)
      requires StrictlySorted(rows)
      ensures first == LowerBound(rows, name)
    {
      first := 0;
      var count := |rows|;
      while count > 0
        invariant first + count <= |rows|
        invariant first <= LowerBound(rows, name) <= first + count
      {
        var step := count / 2;
        var middle := first + step;
        BeforeOrAfter(rows, name, middle);
        if Less(rows[middle], name) {
          first := middle + 1;
          count := count - (step + 1);
        } else {
          count := step;
        }
      }
    }

    /** The new row is connected to its player, so the plugin must know it already. */
    method PlayerAdded(name: string)
      requires StrictlySorted(rows) && plugin != null && name in plugin.players
      modifies this`rows, this`log
      ensures Shown() == AddAll(old(Shown()), [name])
    {
      AddOne(Shown(), name);
      var position := FindPosition(name);
      if position < |rows| && rows[position] == name {
        assert log + [] == log;
        return;
      }
      rows := rows[..position] + [name] + rows[position..];
      var player := plugin.players[name];
      log := log + [Inserted(position, rows[position])];
    }

    method PlayerRemoved(name: string)
      modifies this`rows, this`log
      ensures Shown() == RemoveAll(old(Shown()), [name])
    {
      RemoveOne(Shown(), name);
      var position := IndexOf(rows, name);
      if position == |rows| {
        assert log + [] == log;
        return;
      }
      rows := rows[..position] + rows[position + 1..];
      log := log + [Removed(position)];
    }

    method PluginDestroyed()
      requires plugin != null
      modifies this
      ensures Valid() && plugin == null && rows == [] && log == old(log) + [Reset([])]
    {
      rows := [];
      plugin := null;
      log := log + [Reset(rows)];
      SortedEmpty();
      ReplayOne(old(log), Reset([]));
    }

    /** Shows another plugin, or none; the players of the old one are looked up once more to
        disconnect from them, so each row must still name a player. */
    method SetPlugin(next: MprisRemotePlugin?)
      requires Valid() && (next != null && next != plugin ==> next.listener == null)
      modifies this, plugin, next
      ensures Valid() && plugin == next
      ensures old(plugin) == next ==> Shown() == old(Shown())
      ensures old(plugin) != next ==> log == old(log) + [Reset(rows)]
      ensures next != null ==> next.players == old(next.players)
      ensures old(plugin) != null ==> old(plugin).players == old(plugin.players)
      ensures old(plugin) != null && old(plugin) != next ==> old(plugin).listener == null
    {
      if next == plugin {
        return;
      }
      if plugin != null {
        plugin.listener := null;
        var i := 0;
        while i < |rows|
          invariant i <= |rows|
        {
          assert rows[i] in Names(rows);
          var player := plugin.players[rows[i]];
          i := i + 1;
        }
        rows := [];
      }
      plugin := next;
      if plugin != null {
        plugin.listener := this;
        rows := plugin.Players();
        var i := 0;
        while i < |rows|
          invariant i <= |rows|
        {
          assert rows[i] in Names(rows);
          var player := plugin.players[rows[i]];
          i := i + 1;
        }
      }
      log := log + [Reset(rows)];
      SortedEmpty();
      ReplayOne(old(log), Reset(rows));
    }
  }

  class MprisRemotePlugin {
    var players: map<string, MprisPlayer>
    var listener: MprisPlayersModel?     // whose slots the signals reach

    constructor ()
      ensures players == map[] && listener == null
    {
      players, listener := map[], null;
    }

    /** The keys of the map in any order, sorted. */
    method Players() returns (result: seq<string>)
      ensures Ascending(result) && Names(result) == players.Keys && |result| == |players|
      ensures result == Sorted(players.Keys)
    {
      hide Sorted, Add, Names, StrictlySorted, Ascending;
      result := [];
      var left := players.Keys;
      SortedEmpty();
      assert players.Keys - left == {};
      while left != {}
        invariant left <= players.Keys && result == Sorted(players.Keys - left)
        decreases left
      {
        var x :| x in left;
        AddIsSorted(players.Keys - left, x);
        assert players.Keys - left + {x} == players.Keys - (left - {x});
        result := Add(result, x);
        left := left - {x};
      }
      assert players.Keys - left == players.Keys;
      SortedAscends(result);
      SortedSize(result);
      assert |players| == |players.Keys|;
    }

    /** A packet with a list of players.  added and removed are the orders in which the two
        difference sets happen to be iterated. */
    method ReceivePlayerList(list: seq<string>, added: seq<string>, removed: seq<string>)
      requires Enumerates(added, Names(list) - players.Keys) && Enumerates(removed, players.Keys - Names(list))
      requires listener != null ==> listener.plugin == this && listener.Valid()
      modifies this`players, listener
      ensures players.Keys == Names(list)
      ensures forall p :: p in players ==>
        players[p] == if p in old(players) then old(players)[p] else MprisPlayer(p)
      ensures listener == old(listener)
      ensures listener != null ==> listener.plugin == this && listener.Valid()
      ensures listener != null ==>
        listener.Shown() == RemoveAll(AddAll(old(listener.Shown()), added), removed)
    {
      hide Sorted, AddAll, RemoveAll, Names, Shows;
      ghost var before := players.Keys;
      UpdatePlayers(added, removed);
      assert before + (Names(list) - before) - (before - Names(list)) == Names(list);
      if listener != null {
        ghost var v := listener.Shown();
        PacketShows(v, before, Names(list), added, removed);
        SignalAll(added, removed, before);
      }
    }

    /** Changes the map, before any signal is emitted. */
    method UpdatePlayers(added: seq<string>, removed: seq<string>)
      requires Names(added) !! players.Keys && Names(removed) <= players.Keys
      modifies this`players
      ensures players.Keys == old(players).Keys + Names(added) - Names(removed)
      ensures forall p :: p in players ==>
        players[p] == if p in old(players) then old(players)[p] else MprisPlayer(p)
    {
      assert added[..0] == [] && removed[..0] == [];
      var i := 0;
      while i < |added|
        invariant 0 <= i <= |added|
        invariant players.Keys == old(players).Keys + Names(added[..i])
        invariant forall p :: p in players ==>
          players[p] == if p in old(players) then old(players)[p] else MprisPlayer(p)
      {
        Grow(added, i);
        assert added[i] in Names(added);
        players := players[added[i] := MprisPlayer(added[i])];
        i := i + 1;
      }
      assert added[..|added|] == added;
      i := 0;
      while i < |removed|
        invariant 0 <= i <= |removed|
        invariant players.Keys == old(players).Keys + Names(added) - Names(removed[..i])
        invariant forall p :: p in players ==>
          players[p] == if p in old(players) then old(players)[p] else MprisPlayer(p)
      {
        Grow(removed, i);
        players := players - {removed[i]};
        i := i + 1;
      }
      assert removed[..|removed|] == removed;
    }

    /** Emits all the signals of a packet. */
    method SignalAll(added: seq<string>, removed: seq<string>, ghost names: set<string>)
      requires listener != null && Shows(listener.Shown(), names)
      requires listener.plugin == this && Names(added) <= players.Keys
      modifies listener`rows, listener`log
      ensures listener.Shown() == RemoveAll(AddAll(old(listener.Shown()), added), removed)
    {
      ghost var before := listener.Shown();
      assert added[..0] == [] && removed[..0] == [];
      var i := 0;
      while i < |added|
        invariant 0 <= i <= |added| && listener.Shown() == AddAll(before, added[..i])
      {
        AddAllShows(before, names, added[..i]);
        AddOneMore(before, added, i);
        assert added[i] in Names(added);
        listener.PlayerAdded(added[i]);
        i := i + 1;
      }
      assert added[..|added|] == added;
      i := 0;
      while i < |removed|
        invariant 0 <= i <= |removed|
        invariant listener.Shown() == RemoveAll(AddAll(before, added), removed[..i])
      {
        RemoveOneMore(AddAll(before, added), removed, i);
        listener.PlayerRemoved(removed[i]);
        i := i + 1;
      }
      assert removed[..|removed|] == removed;
    }
  }

  lemma SortedEmpty()
    ensures Sorted({}) == []
  {
    NoNames(Sorted({}));
  }

  lemma BeforeOrAfter(rows: seq<string>, name: string, k: nat)
    requires StrictlySorted(rows) && k < |rows|
    ensures Less(rows[k], name) <==> k < LowerBound(rows, name)
  {
    if k >= LowerBound(rows, name) {
      AfterLowerBound(rows, name, k);
      if Less(rows[k], name) {
        if Less(name, rows[k]) { LessTransitive(name, rows[k], name); }
        LessIrreflexive(name);
      }
    }
  }

  lemma Grow(order: seq<string>, i: nat)
    requires i < |order|
    ensures Names(order[..i + 1]) == Names(order[..i]) + {order[i]}
  {
    LastName(order[..i + 1]);
    assert order[..i + 1][..i] == order[..i];
  }

  lemma AddOne(v: View, name: string)
    ensures AddAll(v, [name]) == View(Add(v.rows, name), v.log + AddNotices(v.rows, name))
  {
    assert [name][..0] == [];
  }

  lemma RemoveOne(v: View, name: string)
    ensures RemoveAll(v, [name]) == View(Remove(v.rows, name), v.log + RemoveNotices(v.rows, name))
  {
    assert [name][..0] == [];
  }

  lemma AddOneMore(v: View, names: seq<string>, i: nat)
    requires i < |names|
    ensures AddAll(v, names[..i + 1]) == AddAll(AddAll(v, names[..i]), [names[i]])
  {
    assert names[..i + 1][..i] == names[..i];
    AddOne(AddAll(v, names[..i]), names[i]);
  }

  lemma RemoveOneMore(v: View, names: seq<string>, i: nat)
    requires i < |names|
    ensures RemoveAll(v, names[..i + 1]) == RemoveAll(RemoveAll(v, names[..i]), [names[i]])
  {
    assert names[..i + 1][..i] == names[..i];
    RemoveOne(RemoveAll(v, names[..i]), names[i]);
  }
}
