/**
 Handles over whole sessions: whatever is opened, closed and opened again, and however the
 allocator reuses addresses, a handle means the object it was last issued for.
 */
module SftpHandles {
  import opened Basics
  import opened SftpSpec

  datatype Kind = AFile | ADir

  /** What the replies of a session say about its handles. */
  datatype Record = Issued(slot: nat, kind: Kind, id: nat) | Released(slot: nat)

  function RecordOf(s: Session, r: Request, reply: Reply): seq<Record> {
    if (r.OpenDir? || r.Open?) && reply.HandleReply? then
      [Issued(reply.slot, if r.Open? then AFile else ADir, s.nextId)]
    else if r.Close? && r.handle.Slot? && reply == Status(OK) then
      [Released(r.handle.i)]
    else []
  }

  /** The object a slot was last issued for, unless it was closed since. */
  function Owner(log: seq<Record>, slot: nat): Option<(Kind, nat)> {
    if log == [] then None
    else
      var last := log[|log| - 1];
      if last.slot == slot then (if last.Issued? then Some((last.kind, last.id)) else None)
      else Owner(log[..|log| - 1], slot)
  }

  function Live(s: Session): set<Address> {
    s.files.Keys + s.dirs.Keys
  }

  /** The two maps are disjoint, and the used slots map injectively into them. */
  ghost predicate Table(s: Session) {
    && |s.slots| == SLOTS
    && s.files.Keys !! s.dirs.Keys
    && 0 !in Live(s)
    && (forall i :: 0 <= i < SLOTS && s.slots[i] != 0 ==> s.slots[i] in Live(s))
    && (forall i, j :: 0 <= i < j < SLOTS && s.slots[i] != 0 ==> s.slots[i] != s.slots[j])
  }

  /** The object living at an address. */
  ghost predicate Houses(s: Session, a: Address, kind: Kind, id: nat) {
    if kind.AFile? then a in s.files && s.files[a].id == id
    else a in s.dirs && s.dirs[a].id == id
  }

  /** Every slot is used exactly while the log owes it to an object, and leads to that object. */
  ghost predicate Honours(s: Session, log: seq<Record>) {
    forall i :: 0 <= i < |s.slots| ==> HonoursSlot(s, log, i)
  }

  ghost predicate HonoursSlot(s: Session, log: seq<Record>, i: nat)
    requires i < |s.slots|
  {
    match Owner(log, i)
    case None => s.slots[i] == 0
    case Some((kind, id)) => s.slots[i] != 0 && Houses(s, s.slots[i], kind, id)
  }

  function IdAt(s: Session, a: Address): nat
    requires a in Live(s)
  {
    if a in s.files then s.files[a].id else s.dirs[a].id
  }

  /** No two open objects share an id, and new ids are unused. */
  ghost predicate FreshIds(s: Session) {
    && (forall a :: a in Live(s) ==> IdAt(s, a) < s.nextId)
    && (forall a, b :: a in Live(s) && b in Live(s) && a != b ==> IdAt(s, a) != IdAt(s, b))
  }

  ghost predicate Inv(s: Session, log: seq<Record>) {
    Table(s) && Honours(s, log) && FreshIds(s) && DirsInRange(s)
  }

  /** Every open object can be reached through a slot. */
  ghost predicate AllReachable(s: Session) {
    forall a :: a in Live(s) ==> a in s.slots
  }

  // ---- one request at a time -------------------------------------------------------------------

  lemma OwnerAfter(log: seq<Record>, e: Record, i: nat)
    ensures Owner(log + [e], i) == if e.slot != i then Owner(log, i)
                                   else if e.Issued? then Some((e.kind, e.id)) else None
  {
    assert (log + [e])[..|log|] == log;
  }

  /** The same objects, wherever they stand in their contents. */
  ghost predicate SameObjects(s: Session, t: Session) {
    && (forall a :: a in s.files ==> a in t.files && t.files[a].id == s.files[a].id)
    && (forall a :: a in s.dirs ==> a in t.dirs && t.dirs[a].id == s.dirs[a].id)
  }

  /** t has one object more than s, at a fresh address. */
  ghost predicate Adds(s: Session, t: Session, a: Address, kind: Kind) {
    && a != 0 && a !in Live(s)
    && t.slots == s.slots && t.nextId == s.nextId + 1
    && SameObjects(s, t) && Houses(t, a, kind, s.nextId)
    && t.files.Keys == s.files.Keys + (if kind.AFile? then {a} else {})
    && t.dirs.Keys == s.dirs.Keys + (if kind.ADir? then {a} else {})
  }

  lemma AddedId(s: Session, t: Session, a: Address, kind: Kind, b: Address)
    requires Table(s) && Adds(s, t, a, kind) && b in Live(t)
    ensures b == a ==> IdAt(t, b) == s.nextId
    ensures b != a ==> b in Live(s) && IdAt(t, b) == IdAt(s, b)
  {
  }

  lemma AddKeepsIds(s: Session, t: Session, a: Address, kind: Kind)
    requires Table(s) && FreshIds(s) && Adds(s, t, a, kind)
    ensures FreshIds(t)
  {
    forall b | b in Live(t)
      ensures if b == a then IdAt(t, b) == s.nextId else b in Live(s) && IdAt(t, b) == IdAt(s, b)
    {
      AddedId(s, t, a, kind, b);
    }
    assert t.nextId == s.nextId + 1;
    hide IdAt, Live, Table, Adds;
  }

  lemma MovedIds(s: Session, t: Session)
    requires FreshIds(s) && t.files == s.files && t.dirs == s.dirs && t.nextId == s.nextId
    ensures FreshIds(t)
  {
    assert forall b :: b in Live(t) ==> b in Live(s) && IdAt(t, b) == IdAt(s, b);
  }

  lemma SameIds(s: Session, t: Session)
    requires FreshIds(s) && s.files.Keys !! s.dirs.Keys && t.nextId == s.nextId
    requires t.files.Keys <= s.files.Keys && t.dirs.Keys <= s.dirs.Keys
    requires forall a :: a in t.files ==> t.files[a].id == s.files[a].id
    requires forall a :: a in t.dirs ==> t.dirs[a].id == s.dirs[a].id
    ensures FreshIds(t)
  {
    forall b | b in Live(t) ensures b in Live(s) && IdAt(t, b) == IdAt(s, b) {
    }
  }

  lemma PublishKeepsTable(s: Session, t: Session, a: Address, kind: Kind)
    requires Table(s) && Adds(s, t, a, kind)
    ensures Table(Publish(t, a).0)
  {
  }

  lemma PublishHonours(s: Session, t: Session, a: Address, kind: Kind, log: seq<Record>)
    requires Table(s) && Honours(s, log) && Adds(s, t, a, kind)
    ensures var (u, reply) := Publish(t, a);
      Honours(u, log + if reply.HandleReply? then [Issued(reply.slot, kind, s.nextId)] else [])
  {
    var (u, reply) := Publish(t, a);
    var i := FirstSlot(s.slots, 0);
    var e := if i < |s.slots| then [Issued(i, kind, s.nextId)] else [];
    assert log + [] == log;
    forall k | 0 <= k < |u.slots| ensures HonoursSlot(u, log + e, k) {
      if i < |s.slots| { OwnerAfter(log, Issued(i, kind, s.nextId), k); }
      assert HonoursSlot(s, log, k);
    }
  }

  lemma PublishKeepsInv(s: Session, t: Session, a: Address, kind: Kind, log: seq<Record>)
    requires Inv(s, log) && Adds(s, t, a, kind) && DirsInRange(t)
    ensures var (u, reply) := Publish(t, a);
      Inv(u, log + if reply.HandleReply? then [Issued(reply.slot, kind, s.nextId)] else [])
  {
    hide Table, Honours, Adds;
    AddKeepsIds(s, t, a, kind);
    PublishKeepsTable(s, t, a, kind);
    PublishHonours(s, t, a, kind, log);
    var u := Publish(t, a).0;
    assert u.files == t.files && u.dirs == t.dirs && u.nextId == t.nextId;
    MovedIds(t, u);
    hide FreshIds;
  }

  /** The slot a live address is found in is the one the client named. */
  lemma SlotFound(s: Session, i: nat)
    requires Table(s) && i < |s.slots| && s.slots[i] != 0
    ensures FirstSlot(s.slots, s.slots[i]) == i
  {
    var k := FirstSlot(s.slots, s.slots[i]);
    assert !(k < i);
  }

  lemma CloseKeepsInv(s: Session, t: Session, i: nat, log: seq<Record>)
    requires Inv(s, log) && i < |s.slots| && s.slots[i] in Live(s)
    requires t == s.(files := s.files - {s.slots[i]}, dirs := s.dirs - {s.slots[i]})
    ensures Inv(Forget(t, s.slots[i]), log + [Released(i)])
  {
    SlotFound(s, i);
    var u := Forget(t, s.slots[i]);
    SameIds(s, u);
    var e := Released(i);
    forall k | 0 <= k < |u.slots| ensures HonoursSlot(u, log + [e], k) {
      OwnerAfter(log, e, k);
      assert HonoursSlot(s, log, k);
    }
  }

  /** Reading, writing and paging change neither addresses nor identities. */
  lemma UseKeepsInv(s: Session, t: Session, log: seq<Record>)
    requires Inv(s, log) && t.slots == s.slots && t.nextId == s.nextId && DirsInRange(t)
    requires t.files.Keys == s.files.Keys && t.dirs.Keys == s.dirs.Keys && SameObjects(s, t)
    ensures Inv(t, log)
  {
    SameIds(s, t);
    forall k | 0 <= k < |t.slots| ensures HonoursSlot(t, log, k) {
      assert HonoursSlot(s, log, k);
    }
  }

  lemma OpenKeepsInv(s: Session, r: Request, log: seq<Record>)
    requires Inv(s, log) && Enabled(s, r) && (r.OpenDir? || r.Open?)
    ensures var (t, reply) := Serve(s, r); Inv(t, log + RecordOf(s, r, reply))
  {
    hide Table, Honours, FreshIds, Publish;
    assert log + [] == log;
    match r
    case OpenDir(Listing(es, a)) =>
      var s1 := s.(dirs := s.dirs[a := DirIterator(s.nextId, es, 0)], nextId := s.nextId + 1);
      PublishKeepsInv(s, s1, a, ADir, log);
    case Open(Opened(c, a)) =>
      var s1 := s.(files := s.files[a := OpenFile(s.nextId, c, 0)], nextId := s.nextId + 1);
      PublishKeepsInv(s, s1, a, AFile, log);
    case _ =>
  }

  lemma CloseRequestKeepsInv(s: Session, h: Handle, log: seq<Record>)
    requires Inv(s, log)
    ensures var (t, reply) := Serve(s, Close(h)); Inv(t, log + RecordOf(s, Close(h), reply))
  {
    assert log + [] == log;
    var a := Resolve(s, h);
    if a in Live(s) {
      var t := s.(files := s.files - {a}, dirs := s.dirs - {a});
      assert t.files == s.files || t.dirs == s.dirs;
      assert t == if a in s.files then s.(files := s.files - {a}) else s.(dirs := s.dirs - {a});
      CloseKeepsInv(s, t, h.i, log);
    }
  }

  /** The state after a request that uses an open object, or none. */
  lemma UseEffect(s: Session, r: Request)
    requires Enabled(s, r) && DirsInRange(s) && (r.ReadDir? || r.Read? || r.Write? || r.OnPath? || r.Unsupported?)
    ensures var t := Serve(s, r).0;
      && t.slots == s.slots && t.nextId == s.nextId && DirsInRange(t)
      && t.files.Keys == s.files.Keys && t.dirs.Keys == s.dirs.Keys && SameObjects(s, t)
  {
    hide Resolve, Forget, Publish, WriteAt, TotalTaken, ReadableAt;
  }

  lemma UseRequestKeepsInv(s: Session, r: Request, log: seq<Record>)
    requires Inv(s, log) && Enabled(s, r) && (r.ReadDir? || r.Read? || r.Write? || r.OnPath? || r.Unsupported?)
    ensures var (t, reply) := Serve(s, r); Inv(t, log + RecordOf(s, r, reply))
  {
    UseEffect(s, r);
    hide Honours, Table, FreshIds, Serve;
    assert log + [] == log;
    UseKeepsInv(s, Serve(s, r).0, log);
  }

  lemma ServeKeepsInv(s: Session, r: Request, log: seq<Record>)
    requires Inv(s, log) && Enabled(s, r)
    ensures var (t, reply) := Serve(s, r); Inv(t, log + RecordOf(s, r, reply))
  {
    if r.OpenDir? || r.Open? {
      OpenKeepsInv(s, r, log);
    } else if r.Close? {
      CloseRequestKeepsInv(s, r.handle, log);
    } else {
      UseRequestKeepsInv(s, r, log);
    }
    hide Serve, Honours, Table, FreshIds, RecordOf, Enabled;
  }

  // ---- whole sessions -----------------------------------------------------------------------------

  ghost predicate IsSession(states: seq<Session>, requests: seq<Request>, replies: seq<Reply>) {
    && |states| == |requests| + 1 && |replies| == |requests|
    && forall i {:trigger requests[i]} :: 0 <= i < |requests| ==>
         && Enabled(states[i], requests[i]) && DirsInRange(states[i])
         && (states[i + 1], replies[i]) == Serve(states[i], requests[i])
  }

  ghost predicate Fresh(s: Session) {
    s.slots == seq(SLOTS, _ => 0) && s.files == map[] && s.dirs == map[] && s.nextId == 0
  }

  /** What the first i replies of a session say about its handles. */
  function Log(states: seq<Session>, requests: seq<Request>, replies: seq<Reply>, i: nat): seq<Record>
    requires i <= |requests| && i <= |replies| && i <= |states|
  {
    if i == 0 then []
    else Log(states, requests, replies, i - 1) + RecordOf(states[i - 1], requests[i - 1], replies[i - 1])
  }

  lemma {:induction false} SessionKeepsInv(states: seq<Session>, requests: seq<Request>, replies: seq<Reply>, i: nat)
    requires IsSession(states, requests, replies) && Fresh(states[0]) && i < |states|
    ensures Inv(states[i], Log(states, requests, replies, i))
  {
    hide Inv, Serve, RecordOf, Enabled, DirsInRange;
    if i == 0 {
      FreshIsInv(states[0]);
    } else {
      SessionKeepsInv(states, requests, replies, i - 1);
      var r := requests[i - 1];
      ServeKeepsInv(states[i - 1], r, Log(states, requests, replies, i - 1));
    }
  }

  lemma FreshIsInv(s: Session)
    requires Fresh(s)
    ensures Inv(s, [])
  {
    assert forall k :: 0 <= k < SLOTS ==> HonoursSlot(s, [], k);
  }

  function OwnerOf(log: seq<Record>, h: Handle): Option<(Kind, nat)> {
    if h.Slot? && h.i < SLOTS then Owner(log, h.i) else None
  }

  /** A handle resolves exactly if it was issued and not closed since its last issue, and then
      to the very object of that issue, of that kind, whatever address it lives at. */
  lemma HandleResolves(states: seq<Session>, requests: seq<Request>, replies: seq<Reply>, i: nat, h: Handle)
    requires IsSession(states, requests, replies) && Fresh(states[0]) && i < |states|
    ensures var s, owner := states[i], OwnerOf(Log(states, requests, replies, i), h);
      var a := Resolve(s, h);
      && (a in s.files <==> owner.Some? && owner.value.0.AFile?)
      && (a in s.dirs <==> owner.Some? && owner.value.0.ADir?)
      && (a in s.files ==> s.files[a].id == owner.value.1)
      && (a in s.dirs ==> s.dirs[a].id == owner.value.1)
  {
    SessionKeepsInv(states, requests, replies, i);
    if h.Slot? && h.i < SLOTS {
      assert HonoursSlot(states[i], Log(states, requests, replies, i), h.i);
    }
  }

  lemma InvalidReply(s: Session, r: Request)
    requires Enabled(s, r) && DirsInRange(s)
    ensures r.Read? || r.Write? ==> (Serve(s, r).1 == Status(INVALID_HANDLE) <==> Resolve(s, r.handle) !in s.files)
    ensures r.ReadDir? ==> (Serve(s, r).1 == Status(INVALID_HANDLE) <==> Resolve(s, r.handle) !in s.dirs)
    ensures r.Close? ==> (Serve(s, r).1 == Status(INVALID_HANDLE) <==> Resolve(s, r.handle) !in Live(s))
  {
    hide Resolve, Forget, WriteAt, TotalTaken, ReadableAt;
  }

  /** INVALID_HANDLE is answered exactly to handles that are not owned, or owned by the wrong
      kind of object. */
  lemma InvalidHandles(states: seq<Session>, requests: seq<Request>, replies: seq<Reply>, i: nat)
    requires IsSession(states, requests, replies) && Fresh(states[0]) && i < |requests|
    requires var r := requests[i]; r.Read? || r.Write? || r.ReadDir? || r.Close?
    ensures var owner := OwnerOf(Log(states, requests, replies, i), requests[i].handle);
      replies[i] == Status(INVALID_HANDLE) <==>
        || owner.None?
        || (owner.value.0.ADir? && (requests[i].Read? || requests[i].Write?))
        || (owner.value.0.AFile? && requests[i].ReadDir?)
  {
    hide Serve, OwnerOf, Log, Fresh, Resolve;
    HandleResolves(states, requests, replies, i, requests[i].handle);
    InvalidReply(states[i], requests[i]);
  }

  lemma LiveWithout(s: Session, t: Session, a: Address)
    requires a in Live(s) && t.files == s.files - {a} && t.dirs == s.dirs - {a}
    ensures Live(t) == Live(s) - {a} && |Live(t)| == |Live(s)| - 1
  {
    assert Live(t) == Live(s) - {a};
  }

  /** Closing an owned handle removes that one object and frees that one slot. */
  lemma CloseEffect(s: Session, h: Handle)
    requires Table(s) && DirsInRange(s) && Resolve(s, h) in Live(s)
    ensures var a := Resolve(s, h);
      Serve(s, Close(h)) == (Session(s.slots[h.i := 0], s.files - {a}, s.dirs - {a}, s.nextId), Status(OK))
  {
    var a := Resolve(s, h);
    SlotFound(s, h.i);
    if a in s.files {
      assert s.dirs - {a} == s.dirs;
    } else {
      assert s.files - {a} == s.files;
    }
  }

  /** Everything else stays, and the handle is invalid from then on. */
  lemma CloseRemovesOne(s: Session, h: Handle)
    requires Table(s) && DirsInRange(s) && Resolve(s, h) in Live(s)
    ensures var t := Serve(s, Close(h)).0;
      && Live(t) == Live(s) - {Resolve(s, h)} && |Live(t)| == |Live(s)| - 1
      && Resolve(t, h) !in Live(t)
  {
    CloseEffect(s, h);
    var a := Resolve(s, h);
    var t := Session(s.slots[h.i := 0], s.files - {a}, s.dirs - {a}, s.nextId);
    LiveWithout(s, t, a);
    hide Serve;
  }

  /** Opening leaves every open object reachable exactly if a slot was free; otherwise the new
      object stays in its map with no handle leading to it. */
  lemma OpenReachableIff(s: Session, r: Request, log: seq<Record>)
    requires Inv(s, log) && Enabled(s, r) && AllReachable(s)
    requires (r.OpenDir? && r.dirAnswer.Listing?) || (r.Open? && r.fileAnswer.Opened?)
    ensures AllReachable(Serve(s, r).0) <==> 0 in s.slots
    ensures Serve(s, r).1.NoHandle? <==> 0 !in s.slots
  {
    var a := if r.OpenDir? then r.dirAnswer.at else r.fileAnswer.at;
    var t := Serve(s, r).0;
    var i := FirstSlot(s.slots, 0);
    assert a in Live(t) && a !in s.slots;
    if i < |s.slots| {
      assert t.slots[i] == a;
      forall b | b in Live(t) ensures b in t.slots {
        if b != a {
          var k :| 0 <= k < |s.slots| && s.slots[k] == b;
          assert t.slots[k] == b;
        }
      }
    }
  }

  lemma UseKeepsTable(s: Session, r: Request)
    requires Enabled(s, r) && DirsInRange(s) && (r.ReadDir? || r.Read? || r.Write? || r.OnPath? || r.Unsupported?)
    ensures Serve(s, r).0.slots == s.slots && Live(Serve(s, r).0) == Live(s)
  {
    hide WriteReply, ReadReply, ReadDirReply;
  }

  lemma CloseKeepsReachable(s: Session, t: Session, i: nat)
    requires Table(s) && AllReachable(s) && i < |s.slots| && s.slots[i] in Live(s)
    requires t.slots == s.slots[i := 0] && Live(t) == Live(s) - {s.slots[i]}
    ensures AllReachable(t)
  {
    forall b | b in Live(t) ensures b in t.slots {
      var k :| 0 <= k < |s.slots| && s.slots[k] == b;
      assert t.slots[k] == b;
    }
  }

  /** Requests that do not open anything keep every open object reachable. */
  lemma OthersKeepReachable(s: Session, r: Request, log: seq<Record>)
    requires Inv(s, log) && Enabled(s, r) && AllReachable(s) && !r.OpenDir? && !r.Open?
    ensures AllReachable(Serve(s, r).0)
  {
    hide Honours, FreshIds;
    var t := Serve(s, r).0;
    if r.Close? {
      if Resolve(s, r.handle) in Live(s) {
        CloseEffect(s, r.handle);
        LiveWithout(s, t, Resolve(s, r.handle));
        hide Serve;
        CloseKeepsReachable(s, t, r.handle.i);
      }
    } else {
      UseKeepsTable(s, r);
    }
  }

  // ---- a full table --------------------------------------------------------------------------------

  function FilledFiles(n: nat): (files: map<Address, OpenFile>)
    ensures forall a :: a in files <==> 1 <= a <= n
  {
    if n == 0 then map[] else FilledFiles(n - 1)[n := OpenFile(n - 1, [], 0)]
  }

  /** A session after n OPENs and nothing else. */
  function Filled(n: nat): Session {
    Session(seq(SLOTS, i => if i < n then i + 1 else 0), FilledFiles(n), map[], n)
  }

  function NextOpen(n: nat): Request {
    Open(Opened([], n + 1))
  }

  function NextHandle(n: nat): Reply {
    if n < SLOTS then HandleReply(n) else NoHandle
  }

  lemma FillOne(n: nat)
    requires n <= SLOTS
    ensures Enabled(Filled(n), NextOpen(n)) && DirsInRange(Filled(n))
    ensures Serve(Filled(n), NextOpen(n)) == (Filled(n + 1), NextHandle(n))
  {
    var s, t := Filled(n), Filled(n + 1);
    if n < SLOTS {
      assert s.slots[n] == 0;
      assert s.slots[n := n + 1] == t.slots;
    } else {
      assert forall i :: 0 <= i < SLOTS ==> s.slots[i] != 0;
      assert s.slots == t.slots;
    }
  }

  lemma FilledSession(states: seq<Session>, requests: seq<Request>, replies: seq<Reply>)
    requires states == seq(SLOTS + 2, i requires 0 <= i => Filled(i))
    requires requests == seq(SLOTS + 1, i requires 0 <= i => NextOpen(i))
    requires replies == seq(SLOTS + 1, i requires 0 <= i => NextHandle(i))
    ensures IsSession(states, requests, replies)
  {
    hide Serve, Enabled, DirsInRange, Filled, NextOpen, NextHandle;
    forall i | 0 <= i < SLOTS + 1
      ensures Enabled(states[i], requests[i]) && DirsInRange(states[i])
      ensures (states[i + 1], replies[i]) == Serve(states[i], requests[i])
    {
      FillOne(i);
    }
  }

  lemma LastIsUnreachable()
    ensures !AllReachable(Filled(SLOTS + 1))
  {
    var s := Filled(SLOTS + 1);
    assert SLOTS + 1 in Live(s) && SLOTS + 1 !in s.slots;
  }

  lemma FilledIsFresh()
    ensures Fresh(Filled(0))
  {
    assert Filled(0).slots == seq(SLOTS, _ => 0);
  }

  /** 257 OPENs without a CLOSE: the last object stays open with no handle leading to it. */
  lemma FullTableLosesObject()
    ensures exists states: seq<Session>, requests: seq<Request>, replies: seq<Reply> ::
      && IsSession(states, requests, replies) && Fresh(states[0])
      && |replies| == SLOTS + 1 && replies[SLOTS] == NoHandle && !AllReachable(states[SLOTS + 1])
  {
    hide IsSession, Filled, Fresh, AllReachable, NextOpen;
    var states := seq(SLOTS + 2, i requires 0 <= i => Filled(i));
    var requests := seq(SLOTS + 1, i requires 0 <= i => NextOpen(i));
    var replies := seq(SLOTS + 1, i requires 0 <= i => NextHandle(i));
    FilledSession(states, requests, replies);
    FilledIsFresh();
    LastIsUnreachable();
    assert states[0] == Filled(0) && states[SLOTS + 1] == Filled(SLOTS + 1);
  }

  // ---- the answers to the other requests -----------------------------------------------------------

  /** OPENDIR and OPEN answer with a status exactly if the file system gives nothing to open, and
      then change nothing; otherwise there is one open object more, at its beginning, and the answer
      is the handle of the first free slot, which then leads to it, if there is one. */
  lemma OpenAnswers(s: Session, r: Request)
    requires Table(s) && DirsInRange(s) && Enabled(s, r) && (r.OpenDir? || r.Open?)
    ensures var (t, reply) := Serve(s, r);
      && (reply == Status(NO_SUCH_FILE) <==> r.OpenDir? && r.dirAnswer.NoSuchPath?)
      && (reply == Status(Code.NOT_A_DIRECTORY) <==> r.OpenDir? && r.dirAnswer.NotADirectory?)
      && (reply == Status(PERMISSION_DENIED) <==> r.OpenDir? && r.dirAnswer.Unreadable?)
      && (reply == Status(FAILURE) <==> r.Open? && r.fileAnswer.Refused?)
      && (reply.Status? ==> t == s)
      && (!reply.Status? ==>
            var a := if r.Open? then r.fileAnswer.at else r.dirAnswer.at;
            && Live(t) == Live(s) + {a} && a !in Live(s)
            && (r.Open? ==> t.dirs == s.dirs && t.files == s.files[a := OpenFile(s.nextId, r.fileAnswer.content, 0)])
            && (r.OpenDir? ==> t.files == s.files && t.dirs == s.dirs[a := DirIterator(s.nextId, r.dirAnswer.entries, 0)])
            && (reply.NoHandle? <==> forall k :: 0 <= k < |s.slots| ==> s.slots[k] != 0)
            && (reply.NoHandle? ==> t.slots == s.slots)
            && (reply.HandleReply? ==>
                  && reply.slot < |s.slots| && s.slots[reply.slot] == 0
                  && (forall k :: 0 <= k < reply.slot ==> s.slots[k] != 0)
                  && t.slots == s.slots[reply.slot := a]))
      && (reply.Status? || reply.HandleReply? || reply.NoHandle?)
  {
  }

  /** What is not served is answered as unsupported and changes nothing. */
  lemma UnsupportedAnswer(s: Session)
    requires DirsInRange(s)
    ensures Serve(s, Unsupported) == (s, Status(OP_UNSUPPORTED))
  {
  }

  // ---- requests on paths ---------------------------------------------------------------------------

  /** Section 6.8 of draft-ietf-secsh-filexfer-02 has STAT follow links and LSTAT not.  Here STAT
      of something that is there is answered with attributes if and only if it is no link, and
      LSTAT always, with those of the target. */
  lemma StatOfLinks(s: Session, isLink: bool, present: bool)
    requires DirsInRange(s)
    ensures isLink || present ==>
      && Serve(s, OnPath(Stat(isLink, present))).1 == (if isLink then Status(OP_UNSUPPORTED) else Attributes)
      && Serve(s, OnPath(LStat(isLink, present))).1 == Attributes
    ensures !isLink && !present ==>
      Serve(s, OnPath(Stat(isLink, present))).1 == Serve(s, OnPath(LStat(isLink, present))).1 == Status(NO_SUCH_FILE)
    ensures Serve(s, OnPath(Stat(isLink, present))).0 == Serve(s, OnPath(LStat(isLink, present))).0 == s
  {
  }

  /** The other requests on paths change no session either.  What the file system finds is named, and
      what it did is answered with OK; a failure is answered by the status the code has for it. */
  lemma PathAnswers(s: Session, p: PathRequest)
    requires DirsInRange(s) && !p.Stat? && !p.LStat?
    ensures var (t, reply) := Serve(s, OnPath(p));
      && t == s
      && match p
         case ReadLink(target) => reply == if |target| > 0 then Names([target]) else Status(NO_SUCH_FILE)
         case RealPath(path) => reply == if |path| > 0 then Names([path]) else Status(NO_SUCH_FILE)
         case Remove(removed) => (reply == Status(OK) <==> removed) && (reply == Status(FAILURE) <==> !removed)
         case RemoveDir(removed) => (reply == Status(OK) <==> removed) && (reply == Status(FAILURE) <==> !removed)
         case Symlink(linked) => (reply == Status(OK) <==> linked) && (reply == Status(FAILURE) <==> !linked)
         case MakeDir(made, there) =>
           && (reply == Status(OK) <==> made)
           && (reply == Status(FILE_ALREADY_EXISTS) <==> !made && there)
           && (reply == Status(FAILURE) <==> !made && !there)
         case Rename(source, isLink, target, removed, renamed) =>
           && (reply == Status(NO_SUCH_FILE) <==> !source && !isLink)
           && (reply == Status(OK) <==> (source || isLink) && (!target || removed) && renamed)
           && (reply == Status(FAILURE) <==> (source || isLink) && ((target && !removed) || !renamed))
         case _ => true
  {
  }
}
