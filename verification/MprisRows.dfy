/**
 The list of media players: a plugin keeps a map of players and reports the difference that
 each packet makes; a list model keeps its rows sorted by inserting and removing one row at
 a time.  Names are compared character by character, as QString does.
 */
module MprisRows {

  // ---- the order of names ---------------------------------------------------------------------

  predicate Less(a: string, b: string) {
    b != "" && (a == "" || a[0] < b[0] || (a[0] == b[0] && Less(a[1..], b[1..])))
  }

  lemma LessIrreflexive(a: string)
    ensures !Less(a, a)
  {
  }

  lemma {:induction false} LessTotal(a: string, b: string)
    ensures a == b || Less(a, b) || Less(b, a)
  {
    if a != "" && b != "" && a[0] == b[0] {
      LessTotal(a[1..], b[1..]);
      assert a == [a[0]] + a[1..] && b == [b[0]] + b[1..];
    }
  }

  lemma {:induction false} LessTransitive(a: string, b: string, c: string)
    requires Less(a, b) && Less(b, c)
    ensures Less(a, c)
  {
    if a != "" && a[0] == b[0] && b[0] == c[0] {
      LessTransitive(a[1..], b[1..], c[1..]);
    }
  }

  /** The names agree up to position k, and there the first one ends or has the smaller character. */
  predicate AscendsAt(a: string, b: string, k: nat) {
    && k <= |a| && k <= |b| && a[..k] == b[..k]
    && (k == |a| < |b| || (k < |a| && k < |b| && a[k] < b[k]))
  }

  /** Ascending: the first name is a proper prefix of the second, or the first characters in which
      they differ ascend. */
  ghost predicate Ascends(a: string, b: string) {
    exists k: nat :: AscendsAt(a, b, k)
  }

  lemma {:induction false} LessIsAscending(a: string, b: string)
    ensures Less(a, b) <==> Ascends(a, b)
  {
    forall k: nat | 0 < k <= |a| ensures a[..k][0] == a[0] {
    }
    forall k: nat | 0 < k <= |b| ensures b[..k][0] == b[0] {
    }
    if a == "" || b == "" || a[0] != b[0] {
      assert a[..0] == b[..0];
      if Less(a, b) { assert AscendsAt(a, b, 0); }
      if Ascends(a, b) {
        var k: nat :| AscendsAt(a, b, k);
        assert k == 0;
      }
    } else {
      LessIsAscending(a[1..], b[1..]);
      if Less(a, b) {
        var k: nat :| AscendsAt(a[1..], b[1..], k);
        assert a[..k + 1] == [a[0]] + a[1..][..k] && b[..k + 1] == [b[0]] + b[1..][..k];
        assert AscendsAt(a, b, k + 1);
      }
      if Ascends(a, b) {
        var k: nat :| AscendsAt(a, b, k);
        assert k > 0;
        assert a[1..][..k - 1] == a[..k][1..] == b[..k][1..] == b[1..][..k - 1];
        assert AscendsAt(a[1..], b[1..], k - 1);
      }
    }
  }

  /** Each row is followed by a greater one. */
  ghost predicate Ascending(rows: seq<string>) {
    forall i :: 0 <= i < |rows| - 1 ==> Ascends(rows[i], rows[i + 1])
  }

  lemma SortedAscends(rows: seq<string>)
    requires StrictlySorted(rows)
    ensures Ascending(rows)
  {
    forall i | 0 <= i < |rows| - 1 ensures Ascends(rows[i], rows[i + 1]) {
      LessIsAscending(rows[i], rows[i + 1]);
    }
  }

  ghost predicate StrictlySorted(rows: seq<string>) {
    forall i, j :: 0 <= i < j < |rows| ==> Less(rows[i], rows[j])
  }

  function Names(rows: seq<string>): set<string> {
    set i | 0 <= i < |rows| :: rows[i]
  }

  lemma NoNames(rows: seq<string>)
    ensures rows == [] <==> Names(rows) == {}
  {
    if rows != [] { assert rows[0] in Names(rows); }
  }

  lemma LastName(rows: seq<string>)
    requires rows != []
    ensures Names(rows) == Names(rows[..|rows| - 1]) + {rows[|rows| - 1]}
  {
  }

  lemma {:induction false} SortedUnique(a: seq<string>, b: seq<string>)
    requires StrictlySorted(a) && StrictlySorted(b) && Names(a) == Names(b)
    ensures a == b
    decreases |a|
  {
    NoNames(a);
    NoNames(b);
    if a != [] {
      assert a[0] in Names(a);
      assert b[0] in Names(a);
      var i :| 0 <= i < |a| && a[i] == b[0];
      var j :| 0 <= j < |b| && b[j] == a[0];
      if i > 0 && j > 0 {
        LessTransitive(a[0], a[i], a[0]);
        LessIrreflexive(a[0]);
      }
      assert a[0] == b[0];
      forall x | x in Names(a[1..]) ensures x in Names(b[1..]) {
        var k :| 0 <= k < |a| - 1 && a[k + 1] == x;
        LessIrreflexive(x);
        assert x in Names(b);
        var l :| 0 <= l < |b| && b[l] == x;
        assert b[1..][l - 1] == x;
      }
      forall x | x in Names(b[1..]) ensures x in Names(a[1..]) {
        var k :| 0 <= k < |b| - 1 && b[k + 1] == x;
        LessIrreflexive(x);
        assert x in Names(a);
        var l :| 0 <= l < |a| && a[l] == x;
        assert a[1..][l - 1] == x;
      }
      assert Names(a[1..]) == Names(b[1..]);
      SortedUnique(a[1..], b[1..]);
      assert a == [a[0]] + a[1..] && b == [b[0]] + b[1..];
    }
  }

  lemma {:induction false} SortedSize(rows: seq<string>)
    requires StrictlySorted(rows)
    ensures |rows| == |Names(rows)|
  {
    NoNames(rows);
    if rows != [] {
      var init, last := rows[..|rows| - 1], rows[|rows| - 1];
      LastName(rows);
      SortedSize(init);
      LessIrreflexive(last);
      assert last !in Names(init);
    }
  }

  // ---- inserting and removing one row ---------------------------------------------------------

  /** The first row that is not before name. */
  function LowerBound(rows: seq<string>, name: string): (i: nat)
    ensures i <= |rows|
    ensures forall k :: 0 <= k < i ==> Less(rows[k], name)
    ensures i < |rows| ==> !Less(rows[i], name)
  {
    if rows == [] || !Less(rows[0], name) then 0
    else
      var i := LowerBound(rows[1..], name) + 1;
      assert forall k :: 1 <= k < i ==> rows[k] == rows[1..][k - 1];
      i
  }

  function InsertAt(rows: seq<string>, i: nat, name: string): seq<string>
    requires i <= |rows|
  {
    rows[..i] + [name] + rows[i..]
  }

  function RemoveAt(rows: seq<string>, i: nat): seq<string>
    requires i < |rows|
  {
    rows[..i] + rows[i + 1..]
  }

  function Add(rows: seq<string>, name: string): seq<string> {
    var i := LowerBound(rows, name);
    if i < |rows| && rows[i] == name then rows else InsertAt(rows, i, name)
  }

  /** The first row with that name, or the number of rows. */
  function IndexOf(rows: seq<string>, name: string): (i: nat)
    ensures i <= |rows| && (i < |rows| ==> rows[i] == name)
    ensures forall k :: 0 <= k < i ==> rows[k] != name
  {
    if rows == [] || rows[0] == name then 0
    else
      var i := IndexOf(rows[1..], name) + 1;
      assert forall k :: 1 <= k < i ==> rows[k] == rows[1..][k - 1];
      i
  }

  function Remove(rows: seq<string>, name: string): seq<string> {
    var i := IndexOf(rows, name);
    if i < |rows| then RemoveAt(rows, i) else rows
  }

  lemma AfterLowerBound(rows: seq<string>, name: string, k: nat)
    requires StrictlySorted(rows) && LowerBound(rows, name) <= k < |rows|
    ensures rows[k] == name || Less(name, rows[k])
    ensures rows[k] == name ==> k == LowerBound(rows, name)
  {
    var i := LowerBound(rows, name);
    LessTotal(rows[i], name);
    if k > i {
      if rows[i] != name { LessTransitive(name, rows[i], rows[k]); }
      LessIrreflexive(name);
    }
  }

  lemma InsertedNames(rows: seq<string>, i: nat, name: string)
    requires i <= |rows|
    ensures Names(InsertAt(rows, i, name)) == Names(rows) + {name}
  {
    var t := InsertAt(rows, i, name);
    forall x | x in Names(rows) + {name} ensures x in Names(t) {
      if x == name {
        assert t[i] == x;
      } else {
        var k :| 0 <= k < |rows| && rows[k] == x;
        assert t[if k < i then k else k + 1] == x;
      }
    }
  }

  lemma InsertedSorted(rows: seq<string>, i: nat, name: string)
    requires StrictlySorted(rows) && i <= |rows|
    requires forall k :: 0 <= k < i ==> Less(rows[k], name)
    requires forall k :: i <= k < |rows| ==> Less(name, rows[k])
    ensures StrictlySorted(InsertAt(rows, i, name))
  {
    hide Less;
  }

  /** Adding a name keeps the rows sorted and adds just that name. */
  lemma AddKeepsSorted(rows: seq<string>, name: string)
    requires StrictlySorted(rows)
    ensures StrictlySorted(Add(rows, name)) && Names(Add(rows, name)) == Names(rows) + {name}
  {
    hide Less;
    var i := LowerBound(rows, name);
    if i < |rows| && rows[i] == name {
      assert name in Names(rows);
    } else {
      forall k | i <= k < |rows| ensures Less(name, rows[k]) {
        AfterLowerBound(rows, name, k);
      }
      InsertedSorted(rows, i, name);
      InsertedNames(rows, i, name);
    }
  }

  lemma SortedIsInjective(rows: seq<string>, i: nat, j: nat)
    requires StrictlySorted(rows) && i < |rows| && j < |rows| && rows[i] == rows[j]
    ensures i == j
  {
    LessIrreflexive(rows[i]);
  }

  /** Removing a name keeps the rows sorted and removes just that name. */
  lemma RemoveKeepsSorted(rows: seq<string>, name: string)
    requires StrictlySorted(rows)
    ensures StrictlySorted(Remove(rows, name)) && Names(Remove(rows, name)) == Names(rows) - {name}
  {
    var i, t := IndexOf(rows, name), Remove(rows, name);
    if i < |rows| {
      forall x | x in Names(rows) - {name} ensures x in Names(t) {
        var k :| 0 <= k < |rows| && rows[k] == x;
        assert t[if k < i then k else k - 1] == x;
      }
      forall x | x in Names(t) ensures x in Names(rows) - {name} {
        var k :| 0 <= k < |t| && t[k] == x;
        var l := if k < i then k else k + 1;
        assert rows[l] == x;
        if x == name { SortedIsInjective(rows, i, l); }
      }
    }
  }

  /** The sorted list of a set of names. */
  ghost function Sorted(names: set<string>): (rows: seq<string>)
    ensures StrictlySorted(rows) && Names(rows) == names
  {
    if names == {} then []
    else
      var x :| x in names;
      var rest := Sorted(names - {x});
      AddKeepsSorted(rest, x);
      Add(rest, x)
  }

  /** Keeping the list up to date is the same as sorting again. */
  lemma AddIsSorted(names: set<string>, name: string)
    ensures Add(Sorted(names), name) == Sorted(names + {name})
  {
    AddKeepsSorted(Sorted(names), name);
    SortedUnique(Add(Sorted(names), name), Sorted(names + {name}));
  }

  lemma RemoveIsSorted(names: set<string>, name: string)
    ensures Remove(Sorted(names), name) == Sorted(names - {name})
  {
    RemoveKeepsSorted(Sorted(names), name);
    SortedUnique(Remove(Sorted(names), name), Sorted(names - {name}));
  }

  // ---- notifications ------------------------------------------------------------------------------

  datatype Notice =
    | Inserted(at: nat, name: string)    // a row was inserted; its name is read at that position
    | Removed(at: nat)
    | Reset(rows: seq<string>)           // everything is read again

  /** What an observer knows who applies only the notices to what it knew before. */
  function Observe(seen: seq<string>, n: Notice): seq<string> {
    match n
    case Inserted(i, name) => if i <= |seen| then InsertAt(seen, i, name) else seen
    case Removed(i) => if i < |seen| then RemoveAt(seen, i) else seen
    case Reset(rows) => rows
  }

  function Replay(log: seq<Notice>): seq<string> {
    if log == [] then [] else Observe(Replay(log[..|log| - 1]), log[|log| - 1])
  }

  lemma ReplayOne(log: seq<Notice>, n: Notice)
    ensures Replay(log + [n]) == Observe(Replay(log), n)
  {
    assert (log + [n])[..|log|] == log;
  }

  /** The notices that adding or removing a name causes. */
  function AddNotices(rows: seq<string>, name: string): seq<Notice> {
    var i := LowerBound(rows, name);
    if i < |rows| && rows[i] == name then [] else [Inserted(i, name)]
  }

  function RemoveNotices(rows: seq<string>, name: string): seq<Notice> {
    var i := IndexOf(rows, name);
    if i < |rows| then [Removed(i)] else []
  }

  lemma AddReplays(rows: seq<string>, log: seq<Notice>, name: string)
    requires Replay(log) == rows
    ensures Replay(log + AddNotices(rows, name)) == Add(rows, name)
  {
    ReplayOne(log, Inserted(LowerBound(rows, name), name));
    assert log + [] == log;
  }

  lemma RemoveReplays(rows: seq<string>, log: seq<Notice>, name: string)
    requires Replay(log) == rows
    ensures Replay(log + RemoveNotices(rows, name)) == Remove(rows, name)
  {
    ReplayOne(log, Removed(IndexOf(rows, name)));
    assert log + [] == log;
  }

  // ---- one packet ------------------------------------------------------------------------------------

  datatype View = View(rows: seq<string>, log: seq<Notice>)

  function AddAll(v: View, names: seq<string>): View {
    if names == [] then v
    else
      var w := AddAll(v, names[..|names| - 1]);
      var name := names[|names| - 1];
      View(Add(w.rows, name), w.log + AddNotices(w.rows, name))
  }

  function RemoveAll(v: View, names: seq<string>): View {
    if names == [] then v
    else
      var w := RemoveAll(v, names[..|names| - 1]);
      var name := names[|names| - 1];
      View(Remove(w.rows, name), w.log + RemoveNotices(w.rows, name))
  }

  /** The rows are the sorted names, and the notices so far lead to the rows. */
  ghost predicate Shows(v: View, names: set<string>) {
    v.rows == Sorted(names) && Replay(v.log) == v.rows
  }

  lemma {:induction false} AddAllShows(v: View, names: set<string>, added: seq<string>)
    requires Shows(v, names)
    ensures Shows(AddAll(v, added), names + Names(added))
  {
    hide Add, Replay, LowerBound, AddNotices, Sorted, Names;
    NoNames(added);
    if added == [] {
      assert names + Names(added) == names;
    } else {
      var init, name := added[..|added| - 1], added[|added| - 1];
      AddAllShows(v, names, init);
      var w := AddAll(v, init);
      AddIsSorted(names + Names(init), name);
      AddReplays(w.rows, w.log, name);
      LastName(added);
      assert names + Names(init) + {name} == names + Names(added);
    }
  }

  lemma {:induction false} RemoveAllShows(v: View, names: set<string>, removed: seq<string>)
    requires Shows(v, names)
    ensures Shows(RemoveAll(v, removed), names - Names(removed))
  {
    hide Remove, Replay, IndexOf, RemoveNotices, Sorted, Names;
    NoNames(removed);
    if removed == [] {
      assert names - Names(removed) == names;
    } else {
      var init, name := removed[..|removed| - 1], removed[|removed| - 1];
      RemoveAllShows(v, names, init);
      var w := RemoveAll(v, init);
      RemoveIsSorted(names - Names(init), name);
      RemoveReplays(w.rows, w.log, name);
      LastName(removed);
      assert names - Names(init) - {name} == names - Names(removed);
    }
  }

  /** One insertion for each name, in their order. */
  predicate Insertions(notices: seq<Notice>, names: seq<string>) {
    |notices| == |names| && forall k :: 0 <= k < |names| ==> notices[k].Inserted? && notices[k].name == names[k]
  }

  predicate Removals(notices: seq<Notice>, count: nat) {
    |notices| == count && forall k :: 0 <= k < count ==> notices[k].Removed?
  }

  lemma NoChange(v: View)
    ensures AddAll(v, []) == RemoveAll(v, []) == v && v.log + [] == v.log
    ensures Insertions([], []) && Removals([], 0)
  {
  }

  lemma AddAllLast(v: View, added: seq<string>)
    requires added != []
    ensures var w, name := AddAll(v, added[..|added| - 1]), added[|added| - 1];
      AddAll(v, added).log == w.log + AddNotices(w.rows, name)
  {
    hide Add, AddNotices;
  }

  lemma RemoveAllLast(v: View, removed: seq<string>)
    requires removed != []
    ensures var w, name := RemoveAll(v, removed[..|removed| - 1]), removed[|removed| - 1];
      RemoveAll(v, removed).log == w.log + RemoveNotices(w.rows, name)
  {
    hide Remove, RemoveNotices;
  }

  lemma {:induction false} AddAllNotices(v: View, names: set<string>, added: seq<string>) returns (notices: seq<Notice>)
    requires Shows(v, names) && names !! Names(added) && |Names(added)| == |added|
    ensures AddAll(v, added).log == v.log + notices && Insertions(notices, added)
  {
    hide AddAll, Add, Names, Less, StrictlySorted, Replay, Sorted, Insertions, AddNotices;
    notices := [];
    if added == [] {
      NoChange(v);
    } else {
      AddAllLast(v, added);
      var init, name := added[..|added| - 1], added[|added| - 1];
      LastName(added);
      ShorterCount(added);
      var before := AddAllNotices(v, names, init);
      AddAllShows(v, names, init);
      var rows := AddAll(v, init).rows;
      NewNameNotice(rows, name);
      var notice := AddNotices(rows, name)[0];
      MoreInsertions(before, init, notice, name);
      notices := before + [notice];
      assert v.log + before + [notice] == v.log + notices;
      assert init + [name] == added;
    }
  }

  lemma MoreInsertions(notices: seq<Notice>, names: seq<string>, n: Notice, name: string)
    requires Insertions(notices, names) && n.Inserted? && n.name == name
    ensures Insertions(notices + [n], names + [name])
  {
  }

  lemma MoreRemovals(notices: seq<Notice>, count: nat, n: Notice)
    requires Removals(notices, count) && n.Removed?
    ensures Removals(notices + [n], count + 1)
  {
  }

  lemma ShorterCount(added: seq<string>)
    requires added != [] && |Names(added)| == |added|
    ensures |Names(added[..|added| - 1])| == |added| - 1 && added[|added| - 1] !in Names(added[..|added| - 1])
  {
    LastName(added);
    NamesAtMost(added[..|added| - 1]);
  }

  lemma {:induction false} NamesAtMost(rows: seq<string>)
    ensures |Names(rows)| <= |rows|
  {
    NoNames(rows);
    if rows != [] {
      LastName(rows);
      NamesAtMost(rows[..|rows| - 1]);
    }
  }

  lemma NewNameNotice(rows: seq<string>, name: string)
    requires name !in Names(rows)
    ensures var ns := AddNotices(rows, name);
      |ns| == 1 && ns == [ns[0]] && ns[0].Inserted? && ns[0].name == name
  {
  }

  lemma OldNameNotice(rows: seq<string>, name: string)
    requires name in Names(rows)
    ensures var ns := RemoveNotices(rows, name);
      |ns| == 1 && ns == [ns[0]] && ns[0].Removed?
  {
  }

  lemma {:induction false} RemoveAllNotices(v: View, names: set<string>, removed: seq<string>) returns (notices: seq<Notice>)
    requires Shows(v, names) && Names(removed) <= names && |Names(removed)| == |removed|
    ensures RemoveAll(v, removed).log == v.log + notices && Removals(notices, |removed|)
  {
    hide RemoveAll, Remove, Names, Less, StrictlySorted, Replay, Sorted, Removals, RemoveNotices;
    notices := [];
    if removed == [] {
      NoChange(v);
    } else {
      RemoveAllLast(v, removed);
      var init, name := removed[..|removed| - 1], removed[|removed| - 1];
      LastName(removed);
      ShorterCount(removed);
      var before := RemoveAllNotices(v, names, init);
      RemoveAllShows(v, names, init);
      var rows := RemoveAll(v, init).rows;
      OldNameNotice(rows, name);
      var notice := RemoveNotices(rows, name)[0];
      MoreRemovals(before, |init|, notice);
      notices := before + [notice];
      assert v.log + before + [notice] == v.log + notices;
    }
  }

  /** order lists the set, each element once: how a QSet is iterated. */
  predicate Enumerates(order: seq<string>, names: set<string>) {
    Names(order) == names && |order| == |names|
  }

  /** Within one packet, after any number of the added and removed signals, the rows are the old
      names with the ones added so far and without the ones removed so far, in whatever order
      the two sets are iterated, and the notices up to there reproduce them. */
  lemma WithinPacket(v: View, before: set<string>, packet: set<string>, added: seq<string>, removed: seq<string>, i: nat, j: nat)
    requires Shows(v, before) && i <= |added| && j <= |removed|
    requires Enumerates(added, packet - before) && Enumerates(removed, before - packet)
    ensures Shows(RemoveAll(AddAll(v, added[..i]), removed[..j]), before + Names(added[..i]) - Names(removed[..j]))
  {
    AddAllShows(v, before, added[..i]);
    RemoveAllShows(AddAll(v, added[..i]), before + Names(added[..i]), removed[..j]);
  }

  /** After the whole packet the rows are the sorted names of the packet. */
  lemma PacketShows(v: View, before: set<string>, packet: set<string>, added: seq<string>, removed: seq<string>)
    requires Shows(v, before)
    requires Enumerates(added, packet - before) && Enumerates(removed, before - packet)
    ensures Shows(RemoveAll(AddAll(v, added), removed), packet)
  {
    WithinPacket(v, before, packet, added, removed, |added|, |removed|);
    assert added[..|added|] == added && removed[..|removed|] == removed;
    assert before + (packet - before) - (before - packet) == packet;
  }

  /** A packet is told to the observers row by row: one insertion for each new name, in their order,
      then one removal for each name that is gone, and nothing else. */
  lemma PacketNotices(v: View, before: set<string>, packet: set<string>, added: seq<string>, removed: seq<string>)
    requires Shows(v, before)
    requires Enumerates(added, packet - before) && Enumerates(removed, before - packet)
    ensures exists inserted, gone ::
      && RemoveAll(AddAll(v, added), removed).log == v.log + inserted + gone
      && Insertions(inserted, added) && Removals(gone, |removed|)
  {
    hide AddAll, RemoveAll, Replay, Sorted, Insertions, Removals;
    var inserted := AddAllNotices(v, before, added);
    AddAllShows(v, before, added);
    var gone := RemoveAllNotices(AddAll(v, added), before + Names(added), removed);
    assert RemoveAll(AddAll(v, added), removed).log == v.log + inserted + gone;
  }

  /** The plugin forgets removed players before it signals their removal.  In between a row can
      name a player that is gone: row k is one exactly while its removal is not signalled yet. */
  lemma DanglingRows(v: View, before: set<string>, packet: set<string>, added: seq<string>, removed: seq<string>, i: nat, j: nat, k: nat)
    requires Shows(v, before) && i <= |added| && j <= |removed|
    requires Enumerates(added, packet - before) && Enumerates(removed, before - packet)
    requires k < |RemoveAll(AddAll(v, added[..i]), removed[..j]).rows|
    ensures RemoveAll(AddAll(v, added[..i]), removed[..j]).rows[k] !in packet <==>
      exists l :: j <= l < |removed| && removed[l] == RemoveAll(AddAll(v, added[..i]), removed[..j]).rows[k]
  {
    WithinPacket(v, before, packet, added, removed, i, j);
    var rows := RemoveAll(AddAll(v, added[..i]), removed[..j]).rows;
    var x := rows[k];
    assert x in Names(rows);
    assert Names(rows) == before + Names(added[..i]) - Names(removed[..j]);
    if x in Names(added[..i]) {
      var l :| 0 <= l < i && added[..i][l] == x;
      assert added[l] in Names(added);
    }
    if x !in packet {
      assert x in Names(removed);
      var l :| 0 <= l < |removed| && removed[l] == x;
      assert forall m :: 0 <= m < j ==> removed[..j][m] == removed[m] && removed[..j][m] in Names(removed[..j]);
    }
    if exists l :: j <= l < |removed| && removed[l] == x {
      var l :| j <= l < |removed| && removed[l] == x;
      assert removed[l] in Names(removed);
    }
  }
}
