/**
 What a client gets by uploading, downloading and listing through one session.
 */
module SftpTransfer {
  import opened Basics
  import opened SftpSpec
  import opened SftpHandles

  // ---- writing pieces of a file --------------------------------------------------------------

  datatype Piece = Piece(offset: nat, data: seq<Byte>) {
    predicate Covers(p: nat) { offset <= p < offset + |data| }
    function End(): nat { offset + |data| }
  }

  /** A content after writing pieces to it, one after the other. */
  function Apply(content: seq<Byte>, pieces: seq<Piece>): seq<Byte> {
    if pieces == [] then content
    else
      var last := pieces[|pieces| - 1];
      WriteAt(Apply(content, pieces[..|pieces| - 1]), last.offset, last.data)
  }

  lemma WriteAtValues(content: seq<Byte>, offset: nat, data: seq<Byte>)
    ensures var r := WriteAt(content, offset, data);
      && |r| == (if data == [] || offset + |data| <= |content| then |content| else offset + |data|)
      && forall p :: 0 <= p < |r| ==>
           r[p] == if offset <= p < offset + |data| then data[p - offset]
                   else if p < |content| then content[p] else 0
  {
  }

  /** Writing in two goes is writing once. */
  lemma WriteAtSplit(content: seq<Byte>, offset: nat, data: seq<Byte>, k: nat)
    requires k <= |data|
    ensures WriteAt(WriteAt(content, offset, data[..k]), offset + k, data[k..]) == WriteAt(content, offset, data)
  {
    var half := WriteAt(content, offset, data[..k]);
    var twice, once := WriteAt(half, offset + k, data[k..]), WriteAt(content, offset, data);
    WriteAtValues(content, offset, data[..k]);
    WriteAtValues(half, offset + k, data[k..]);
    WriteAtValues(content, offset, data);
    hide WriteAt;
    assert |twice| == |once|;
    forall p | 0 <= p < |once| ensures twice[p] == once[p] {
      if offset <= p < offset + k {
        assert half[p] == data[..k][p - offset];
      } else if offset + k <= p < offset + |data| {
        assert data[k..][p - (offset + k)] == data[p - offset];
      }
    }
  }

  /** A write answers OK exactly if the device took everything; then the data is found at its
      offset and every other byte that was there is unchanged. */
  lemma WriteAnswers(f: OpenFile, r: Request)
    requires r.Write? && Takes(|r.data|, r.taken)
    ensures var (g, reply) := WriteReply(f, r);
      && (reply == Status(OK) <==> r.seeks && TotalTaken(|r.data|, r.taken) == |r.data|)
      && (reply != Status(OK) ==> reply == Status(FAILURE))
      && (reply == Status(OK) && r.data != [] ==>
            r.offset + |r.data| <= |g.content| && g.content[r.offset..r.offset + |r.data|] == r.data)
      && |f.content| <= |g.content|
      && forall p :: 0 <= p < |f.content| && !(r.offset <= p < r.offset + |r.data|) ==> g.content[p] == f.content[p]
  {
    var n := TotalTaken(|r.data|, r.taken);
    WriteAtValues(f.content, r.offset, r.data[..n]);
    if n == |r.data| { assert r.data[..n] == r.data; }
    hide WriteAt;
  }

  predicate Covered(pieces: seq<Piece>, p: nat) {
    exists k :: 0 <= k < |pieces| && pieces[k].Covers(p)
  }

  /** The piece is a slice of the target. */
  predicate Agrees(target: seq<Byte>, piece: Piece) {
    piece.data != [] ==> piece.End() <= |target| && piece.data == target[piece.offset..piece.End()]
  }

  lemma CoveredBefore(pieces: seq<Piece>, p: nat)
    requires pieces != []
    ensures Covered(pieces, p) <==>
      Covered(pieces[..|pieces| - 1], p) || pieces[|pieces| - 1].Covers(p)
  {
    var init := pieces[..|pieces| - 1];
    if Covered(pieces, p) && !pieces[|pieces| - 1].Covers(p) {
      var k :| 0 <= k < |pieces| && pieces[k].Covers(p);
      assert init[k].Covers(p);
    }
    if Covered(init, p) {
      var k :| 0 <= k < |init| && init[k].Covers(p);
      assert pieces[k].Covers(p);
    }
  }

  lemma {:induction false} ApplyAgrees(target: seq<Byte>, pieces: seq<Piece>)
    requires forall k :: 0 <= k < |pieces| ==> Agrees(target, pieces[k])
    ensures |Apply([], pieces)| <= |target|
    ensures forall p :: 0 <= p < |target| && Covered(pieces, p) ==>
      p < |Apply([], pieces)| && Apply([], pieces)[p] == target[p]
  {
    if pieces != [] {
      var init, last := pieces[..|pieces| - 1], pieces[|pieces| - 1];
      ApplyAgrees(target, init);
      WriteAtValues(Apply([], init), last.offset, last.data);
      assert Agrees(target, last);
      forall p | 0 <= p < |target| && Covered(pieces, p)
        ensures p < |Apply([], pieces)| && Apply([], pieces)[p] == target[p]
      {
        CoveredBefore(pieces, p);
        if last.Covers(p) {
          assert last.data[p - last.offset] == target[last.offset..last.End()][p - last.offset];
        }
      }
    }
  }

  /** Slices of a target that cover it, in any order and however they overlap, build it. */
  lemma PiecesBuildTarget(target: seq<Byte>, pieces: seq<Piece>)
    requires forall k :: 0 <= k < |pieces| ==> Agrees(target, pieces[k])
    requires forall p :: 0 <= p < |target| ==> Covered(pieces, p)
    ensures Apply([], pieces) == target
  {
    ApplyAgrees(target, pieces);
    if target != [] {
      assert Covered(pieces, |target| - 1);
      assert |Apply([], pieces)| == |target|;
    }
  }

  ghost predicate Disjoint(pieces: seq<Piece>) {
    forall i, j, p :: 0 <= i < j < |pieces| && pieces[i].Covers(p) ==> !pieces[j].Covers(p)
  }

  /** Pieces that do not overlap are all found in the result, whatever their order. */
  lemma {:induction false} DisjointAgree(pieces: seq<Piece>, k: nat)
    requires Disjoint(pieces) && k < |pieces|
    ensures Agrees(Apply([], pieces), pieces[k])
  {
    var init, last := pieces[..|pieces| - 1], pieces[|pieces| - 1];
    var before, after := Apply([], init), Apply([], pieces);
    WriteAtValues(before, last.offset, last.data);
    if k < |init| && pieces[k].data != [] {
      assert Disjoint(init) by {
        forall i, j, p | 0 <= i < j < |init| && init[i].Covers(p) ensures !init[j].Covers(p) {
          assert pieces[i].Covers(p);
        }
      }
      DisjointAgree(init, k);
      var piece := pieces[k];
      assert init[k] == piece && piece.End() <= |before|;
      forall p | piece.offset <= p < piece.End() ensures after[p] == piece.data[p - piece.offset] {
        assert piece.Covers(p) && !last.Covers(p);
        assert before[piece.offset..piece.End()][p - piece.offset] == before[p];
      }
    }
  }

  lemma {:induction false} ApplyLength(pieces: seq<Piece>, n: nat)
    requires forall k :: 0 <= k < |pieces| && pieces[k].data != [] ==> pieces[k].End() <= n
    ensures |Apply([], pieces)| <= n
  {
    if pieces != [] {
      ApplyLength(pieces[..|pieces| - 1], n);
    }
  }

  /** Any order of the same non-overlapping pieces that cover the first n positions and no
      more gives the same n bytes. */
  lemma OrderIrrelevant(pieces: seq<Piece>, others: seq<Piece>, n: nat)
    requires Disjoint(pieces) && multiset(others) == multiset(pieces)
    requires forall k :: 0 <= k < |pieces| && pieces[k].data != [] ==> pieces[k].End() <= n
    requires forall p :: 0 <= p < n ==> Covered(pieces, p)
    ensures |Apply([], pieces)| == n && Apply([], others) == Apply([], pieces)
  {
    var target := Apply([], pieces);
    ApplyLength(pieces, n);
    if n > 0 {
      assert Covered(pieces, n - 1);
      var k :| 0 <= k < |pieces| && pieces[k].Covers(n - 1);
      DisjointAgree(pieces, k);
    }
    forall k | 0 <= k < |others| ensures Agrees(target, others[k]) {
      assert others[k] in multiset(others);
      var j :| 0 <= j < |pieces| && pieces[j] == others[k];
      DisjointAgree(pieces, j);
    }
    forall p | 0 <= p < |target| ensures Covered(others, p) {
      assert Covered(pieces, p);
      var k :| 0 <= k < |pieces| && pieces[k].Covers(p);
      assert pieces[k] in multiset(pieces) && pieces[k] in others;
    }
    PiecesBuildTarget(target, others);
  }

  // ---- through a session -------------------------------------------------------------------------

  /** What a write puts into a file: the part that the device took. */
  function PieceOf(r: Request): seq<Piece>
    requires r.Write? && Takes(|r.data|, r.taken)
  {
    if r.seeks then [Piece(r.offset, r.data[..TotalTaken(|r.data|, r.taken)])] else []
  }

  predicate AllTake(requests: seq<Request>) {
    forall k :: 0 <= k < |requests| && requests[k].Write? ==> Takes(|requests[k].data|, requests[k].taken)
  }

  predicate WritesTo(r: Request, h: Handle) { r.Write? && r.handle == h }
  predicate ReadsFrom(r: Request, h: Handle) { r.Read? && r.handle == h }

  /** The pieces that the first i requests put into the file behind h. */
  function PiecesOf(requests: seq<Request>, h: Handle, i: nat): seq<Piece>
    requires i <= |requests| && AllTake(requests)
  {
    if i == 0 then []
    else PiecesOf(requests, h, i - 1) + if WritesTo(requests[i - 1], h) then PieceOf(requests[i - 1]) else []
  }

  /** What the replies from request m up to request i returned for reads on h. */
  function Received(requests: seq<Request>, replies: seq<Reply>, h: Handle, m: nat, i: nat): seq<Byte>
    requires i <= |requests| == |replies|
  {
    if i <= m then []
    else
      Received(requests, replies, h, m, i - 1)
      + if ReadsFrom(requests[i - 1], h) && replies[i - 1].Data? then replies[i - 1].bytes else []
  }

  ghost predicate ReadFits(f: OpenFile, r: Request)
    requires r.Read?
  {
    var n := ReadableAt(f.content, r.offset, Min(r.len, MAX_READ));
    r.got < 0 || (r.got <= n && (n > 0 ==> r.got > 0))
  }

  /** One request, as far as the file behind h is concerned. */
  ghost predicate FileStep(f: OpenFile, g: OpenFile, r: Request, reply: Reply, h: Handle) {
    if WritesTo(r, h) then Takes(|r.data|, r.taken) && (g, reply) == WriteReply(f, r)
    else if ReadsFrom(r, h) then ReadFits(f, r) && (g, reply) == ReadReply(f, r)
    else g == f
  }

  /** The life of one file during a session. */
  ghost predicate FileLife(file: seq<OpenFile>, requests: seq<Request>, replies: seq<Reply>, h: Handle) {
    && |file| == |requests| + 1 && |replies| == |requests| && AllTake(requests)
    && forall i {:trigger requests[i]} :: 0 <= i < |requests| ==>
         FileStep(file[i], file[i + 1], requests[i], replies[i], h)
  }

  /** A session, or the rest of one, that never closes h; other handles are opened, used and
      closed freely. */
  ghost predicate KeepsHandle(states: seq<Session>, requests: seq<Request>, replies: seq<Reply>, h: Handle) {
    && IsSession(states, requests, replies)
    && (forall i :: 0 <= i < |states| ==> Table(states[i]))
    && forall i :: 0 <= i < |requests| ==> requests[i] != Close(h)
  }

  /** A request leaves the file behind h alone, unless it reads or writes through h. */
  lemma OneFile(s: Session, r: Request, h: Handle)
    requires Table(s) && Enabled(s, r) && DirsInRange(s) && Resolve(s, h) in s.files && r != Close(h)
    ensures var (t, reply) := Serve(s, r);
      var a := Resolve(s, h);
      && Resolve(t, h) == a && a in t.files
      && FileStep(s.files[a], t.files[a], r, reply, h)
  {
    hide WriteReply, ReadReply, ReadDirReply;
    if r.Close? && Resolve(s, r.handle) in Live(s) {
      CloseEffect(s, r.handle);
      assert r.handle.i != h.i;
    }
    if r.Write? || r.Read? || r.Close? {
      assert Resolve(s, r.handle) == Resolve(s, h) ==> r.handle == h;
    }
  }

  lemma {:induction false} StaysOpen(states: seq<Session>, requests: seq<Request>, replies: seq<Reply>, h: Handle, i: nat)
    requires KeepsHandle(states, requests, replies, h) && Resolve(states[0], h) in states[0].files && i < |states|
    ensures Resolve(states[i], h) == Resolve(states[0], h) && Resolve(states[0], h) in states[i].files
  {
    if i > 0 {
      StaysOpen(states, requests, replies, h, i - 1);
      var r := requests[i - 1];
      OneFile(states[i - 1], r, h);
      hide Serve, Table, Enabled, DirsInRange;
    }
  }

  /** Other handles do not interfere: the file behind h lives through a session as if the
      requests naming h were alone. */
  lemma NoInterference(states: seq<Session>, requests: seq<Request>, replies: seq<Reply>, h: Handle) returns (file: seq<OpenFile>)
    requires KeepsHandle(states, requests, replies, h) && Resolve(states[0], h) in states[0].files
    ensures FileLife(file, requests, replies, h)
    ensures file[0] == states[0].files[Resolve(states[0], h)]
    ensures forall i :: 0 <= i < |states| ==>
      Resolve(states[i], h) in states[i].files && file[i] == states[i].files[Resolve(states[i], h)]
  {
    forall i | 0 <= i < |states|
      ensures Resolve(states[i], h) == Resolve(states[0], h) && Resolve(states[0], h) in states[i].files
    {
      StaysOpen(states, requests, replies, h, i);
    }
    var a := Resolve(states[0], h);
    file := seq(|states|, i requires 0 <= i < |states| => states[i].files[a]);
    forall i | 0 <= i < |requests|
      ensures FileStep(file[i], file[i + 1], requests[i], replies[i], h)
      ensures requests[i].Write? ==> Takes(|requests[i].data|, requests[i].taken)
    {
      var r := requests[i];
      assert Enabled(states[i], r);
      OneFile(states[i], r, h);
      hide Serve, Table;
    }
  }

  /** The file behind h holds at every moment what the requests naming h have written. */
  lemma {:induction false} ContentIsPieces(file: seq<OpenFile>, requests: seq<Request>, replies: seq<Reply>, h: Handle, i: nat)
    requires FileLife(file, requests, replies, h) && i < |file|
    ensures file[i].content == Apply(file[0].content, PiecesOf(requests, h, i))
  {
    if i > 0 {
      ContentIsPieces(file, requests, replies, h, i - 1);
      var r := requests[i - 1];
      assert FileStep(file[i - 1], file[i], r, replies[i - 1], h);
      hide FileLife, WriteAt;
      if WritesTo(r, h) && r.seeks {
        var pieces := PiecesOf(requests, h, i);
        assert pieces[..|pieces| - 1] == PiecesOf(requests, h, i - 1);
      } else {
        assert PiecesOf(requests, h, i) == PiecesOf(requests, h, i - 1);
      }
    }
  }

  /** The reads on h from request m on go forward: each starts where the data received so far
      ends, and asks for something; any of them may fail.  Nothing is written any more. */
  ghost predicate Downloads(requests: seq<Request>, replies: seq<Reply>, h: Handle, m: nat) {
    && m <= |requests| == |replies|
    && forall i {:trigger requests[i]} :: m <= i < |requests| ==>
         var r := requests[i];
         && !WritesTo(r, h)
         && (ReadsFrom(r, h) ==> r.len > 0 && r.offset == |Received(requests, replies, h, m, i)|)
  }

  lemma {:induction false} NoMorePieces(requests: seq<Request>, replies: seq<Reply>, h: Handle, m: nat, i: nat)
    requires AllTake(requests) && Downloads(requests, replies, h, m) && m <= i <= |requests|
    ensures PiecesOf(requests, h, i) == PiecesOf(requests, h, m)
    decreases i - m
  {
    if i > m { NoMorePieces(requests, replies, h, m, i - 1); }
  }

  /** The seek or the device read fails. */
  predicate ReadBreaks(r: Request)
    requires r.Read?
  {
    !r.seeks || r.got < 0
  }

  /** One read: FAILURE if the seek or the device read fails; nothing if nothing was asked for; EOF
      past the end; otherwise at least one byte from the offset on, and never more than asked for
      or than the cap.  The content stays. */
  lemma OneRead(f: OpenFile, r: Request)
    requires r.Read? && ReadFits(f, r)
    ensures var (g, reply) := ReadReply(f, r);
      && g.content == f.content && g.id == f.id
      && if !r.seeks || r.got < 0 then reply == Status(FAILURE)
         else if r.len == 0 then reply == Data([])
         else if r.offset >= |f.content| then reply == Status(EOF)
         else && 0 < r.got <= Min(Min(r.len, 65536 * 128), |f.content| - r.offset)
              && reply == Data(f.content[r.offset..r.offset + r.got])
  {
  }

  /** In every session, for every READ on a handle that is owned by a file: the answer is FAILURE
      exactly if the seek or the device read fails; EOF exactly if neither does, something was asked
      for and the offset is at or past the end; else it is the bytes at the offset. */
  lemma ReadAnswers(states: seq<Session>, requests: seq<Request>, replies: seq<Reply>, i: nat)
    requires IsSession(states, requests, replies) && Fresh(states[0]) && i < |requests| && requests[i].Read?
    requires var owner := OwnerOf(Log(states, requests, replies, i), requests[i].handle);
      owner.Some? && owner.value.0.AFile?
    ensures var r, reply := requests[i], replies[i];
      var a := Resolve(states[i], r.handle);
      && a in states[i].files
      && var content := states[i].files[a].content;
      && (reply == Status(FAILURE) <==> !r.seeks || r.got < 0)
      && (reply == Status(EOF) <==> r.seeks && r.got >= 0 && r.len > 0 && r.offset >= |content|)
      && (reply != Status(FAILURE) && reply != Status(EOF) ==>
            reply.Data? && |reply.bytes| <= r.len
            && (r.len > 0 ==> reply.bytes != [])
            && (reply.bytes == [] || (r.offset + |reply.bytes| <= |content|
                                      && reply.bytes == content[r.offset..r.offset + |reply.bytes|])))
  {
    hide OwnerOf, Log, Fresh, DirsInRange, ReadableAt;
    HandleResolves(states, requests, replies, i, requests[i].handle);
    assert Enabled(states[i], requests[i]);
    ReadServed(states[i], requests[i]);
    var f := states[i].files[Resolve(states[i], requests[i].handle)];
    OneRead(f, requests[i]);
    hide Serve, Resolve, ReadReply;
  }

  lemma ReadServed(s: Session, r: Request)
    requires DirsInRange(s) && r.Read? && Enabled(s, r) && Resolve(s, r.handle) in s.files
    ensures ReadFits(s.files[Resolve(s, r.handle)], r)
    ensures Serve(s, r).1 == ReadReply(s.files[Resolve(s, r.handle)], r).1
  {
    hide Resolve;
  }

  ghost predicate GotPrefix(content: seq<Byte>, got: seq<Byte>, reply: Reply, breaks: bool) {
    && got <= content
    && (reply == Status(FAILURE) <==> breaks)
    && (reply == Status(EOF) <==> !breaks && got == content)
    && (reply.Data? <==> !breaks && got != content)
    && (reply.Data? ==> reply.bytes != [] && got + reply.bytes <= content)
  }

  lemma ReadExtends(f: OpenFile, r: Request, got: seq<Byte>)
    requires r.Read? && ReadFits(f, r) && r.len > 0
    requires got <= f.content && r.offset == |got|
    ensures GotPrefix(f.content, got, ReadReply(f, r).1, ReadBreaks(r))
  {
    OneRead(f, r);
    if r.offset < |f.content| && !ReadBreaks(r) {
      assert got + f.content[r.offset..r.offset + r.got] == f.content[..r.offset + r.got];
    }
  }

  lemma NextReceived(file: seq<OpenFile>, requests: seq<Request>, replies: seq<Reply>, h: Handle, m: nat, i: nat)
    requires FileLife(file, requests, replies, h) && Downloads(requests, replies, h, m) && m <= i < |requests|
    requires Received(requests, replies, h, m, i) <= file[i].content
    ensures ReadsFrom(requests[i], h) ==>
      GotPrefix(file[i].content, Received(requests, replies, h, m, i), replies[i], ReadBreaks(requests[i]))
    ensures Received(requests, replies, h, m, i + 1) <= file[i].content
  {
    if ReadsFrom(requests[i], h) {
      assert FileStep(file[i], file[i + 1], requests[i], replies[i], h);
      ReadExtends(file[i], requests[i], Received(requests, replies, h, m, i));
    }
    hide Downloads, FileLife, ReadReply, FileStep;
  }

  lemma {:induction false} DownloadsKeepContent(file: seq<OpenFile>, requests: seq<Request>, replies: seq<Reply>, h: Handle, m: nat, i: nat)
    requires FileLife(file, requests, replies, h) && Downloads(requests, replies, h, m) && m <= i <= |requests|
    ensures file[i].content == file[m].content
    decreases i - m
  {
    ContentIsPieces(file, requests, replies, h, i);
    ContentIsPieces(file, requests, replies, h, m);
    NoMorePieces(requests, replies, h, m, i);
    hide Apply, PiecesOf, Downloads, FileStep;
  }

  lemma NothingReceived(requests: seq<Request>, replies: seq<Reply>, h: Handle, m: nat)
    requires m <= |requests| == |replies|
    ensures Received(requests, replies, h, m, m) == []
  {
  }

  /** What has been received is always a prefix of the content. */
  lemma {:induction false} ReceivedIsPrefix(file: seq<OpenFile>, requests: seq<Request>, replies: seq<Reply>, h: Handle, m: nat, i: nat)
    requires FileLife(file, requests, replies, h) && Downloads(requests, replies, h, m) && m <= i <= |requests|
    ensures Received(requests, replies, h, m, i) <= file[m].content
    decreases i - m
  {
    assert |file| == |requests| + 1 && |requests| == |replies|;
    hide FileLife, Downloads, GotPrefix, Received, ReadReply, WriteReply, WritesTo, ReadsFrom;
    if i == m {
      NothingReceived(requests, replies, h, m);
    } else {
      ReceivedIsPrefix(file, requests, replies, h, m, i - 1);
      DownloadsKeepContent(file, requests, replies, h, m, i - 1);
      NextReceived(file, requests, replies, h, m, i - 1);
    }
  }

  /** The next read answers FAILURE exactly when it breaks, EOF exactly when it does not and
      everything was received, and otherwise brings at least one more byte of the content. */
  lemma NextReadAnswers(file: seq<OpenFile>, requests: seq<Request>, replies: seq<Reply>, h: Handle, m: nat, i: nat)
    requires FileLife(file, requests, replies, h) && Downloads(requests, replies, h, m) && m <= i < |requests|
    requires ReadsFrom(requests[i], h)
    ensures GotPrefix(Apply(file[0].content, PiecesOf(requests, h, m)), Received(requests, replies, h, m, i),
                      replies[i], ReadBreaks(requests[i]))
  {
    ContentIsPieces(file, requests, replies, h, m);
    DownloadsKeepContent(file, requests, replies, h, m, i);
    ReceivedIsPrefix(file, requests, replies, h, m, i);
    NextReceived(file, requests, replies, h, m, i);
    hide FileLife, Downloads, Received, GotPrefix, Apply, PiecesOf;
  }

  // ---- from the OPEN on ----------------------------------------------------------------------------

  /** Request o of a fresh session is answered with the handle h, which is never closed. */
  ghost predicate HandsOut(states: seq<Session>, requests: seq<Request>, replies: seq<Reply>, o: nat, h: Handle) {
    && IsSession(states, requests, replies) && Fresh(states[0])
    && o < |requests| && (requests[o].Open? || requests[o].OpenDir?)
    && replies[o].HandleReply? && h == Slot(replies[o].slot)
    && forall k :: o < k < |requests| ==> requests[k] != Close(h)
  }

  /** What a handle that was just issued leads to. */
  lemma HandedOut(s: Session, r: Request, h: Handle)
    requires Enabled(s, r) && DirsInRange(s) && (r.Open? || r.OpenDir?)
    requires Serve(s, r).1.HandleReply? && h == Slot(Serve(s, r).1.slot)
    ensures var t := Serve(s, r).0;
      var a := Resolve(t, h);
      && (r.Open? ==> r.fileAnswer.Opened? && a in t.files && t.files[a].content == r.fileAnswer.content)
      && (r.OpenDir? ==> r.dirAnswer.Listing? && a in t.dirs
                         && t.dirs[a].entries == r.dirAnswer.entries && t.dirs[a].next == 0)
  {
  }

  lemma TableKept(states: seq<Session>, requests: seq<Request>, replies: seq<Reply>, i: nat)
    requires IsSession(states, requests, replies) && Fresh(states[0]) && i < |states|
    ensures Table(states[i])
  {
    SessionKeepsInv(states, requests, replies, i);
    hide IsSession, Honours, FreshIds, DirsInRange, Table;
  }

  /** The rest of a session after it handed out h is one that keeps h. */
  lemma RestKeeps(states: seq<Session>, requests: seq<Request>, replies: seq<Reply>, o: nat, h: Handle)
    requires HandsOut(states, requests, replies, o, h)
    ensures KeepsHandle(states[o + 1..], requests[o + 1..], replies[o + 1..], h)
  {
    hide Fresh, Table, Serve, Enabled, DirsInRange;
    forall i | 0 <= i < |states| ensures Table(states[i]) {
      TableKept(states, requests, replies, i);
    }
    var ss, rs, ps := states[o + 1..], requests[o + 1..], replies[o + 1..];
    forall i | 0 <= i < |rs|
      ensures Enabled(ss[i], rs[i]) && DirsInRange(ss[i]) && (ss[i + 1], ps[i]) == Serve(ss[i], rs[i])
      ensures rs[i] != Close(h)
    {
      assert rs[i] == requests[o + 1 + i] && ss[i] == states[o + 1 + i] && ss[i + 1] == states[o + 1 + i + 1];
    }
  }

  /** Request o opens an empty file, for which it hands out h.  Counted from there, up to request
      m there are writes of slices that cover the target; from m on, reads on h go forward; and
      request i is a read that answers EOF. */
  ghost predicate IsRoundTrip(states: seq<Session>, requests: seq<Request>, replies: seq<Reply>, h: Handle,
                              o: nat, m: nat, i: nat, target: seq<Byte>) {
    && HandsOut(states, requests, replies, o, h) && requests[o].Open?
    && requests[o].fileAnswer.Opened? && requests[o].fileAnswer.content == []
    && CoversThenReads(requests[o + 1..], replies[o + 1..], h, m, i, target)
  }

  ghost predicate CoversThenReads(requests: seq<Request>, replies: seq<Reply>, h: Handle, m: nat, i: nat, target: seq<Byte>) {
    && Downloads(requests, replies, h, m) && m <= i < |requests|
    && AllTake(requests)
    && (forall k :: 0 <= k < |PiecesOf(requests, h, m)| ==> Agrees(target, PiecesOf(requests, h, m)[k]))
    && (forall p :: 0 <= p < |target| ==> Covered(PiecesOf(requests, h, m), p))
    && ReadsFrom(requests[i], h) && replies[i] == Status(EOF)
  }

  /** Upload and download: open an empty file, write slices that cover a byte string, in any
      order, with short device writes; then read on to the first EOF, asking for any lengths and
      going on after failed reads.  What comes back is that byte string, whatever else happens in the session. */
  lemma RoundTrip(states: seq<Session>, requests: seq<Request>, replies: seq<Reply>, h: Handle,
                  o: nat, m: nat, i: nat, target: seq<Byte>)
    requires IsRoundTrip(states, requests, replies, h, o, m, i, target)
    ensures Received(requests[o + 1..], replies[o + 1..], h, m, i) == target
  {
    hide Fresh, Enabled, DirsInRange, Serve, Downloads, PiecesOf, Apply;
    var ss, rs, ps := states[o + 1..], requests[o + 1..], replies[o + 1..];
    RestKeeps(states, requests, replies, o, h);
    AfterOpening(states, requests, replies, o, h);
    var file := NoInterference(ss, rs, ps, h);
    PiecesBuildTarget(target, PiecesOf(rs, h, m));
    NextReadAnswers(file, rs, ps, h, m, i);
  }

  lemma AfterOpening(states: seq<Session>, requests: seq<Request>, replies: seq<Reply>, o: nat, h: Handle)
    requires HandsOut(states, requests, replies, o, h)
    ensures var t, r := states[o + 1], requests[o];
      var a := Resolve(t, h);
      && (r.Open? ==> r.fileAnswer.Opened? && a in t.files && t.files[a].content == r.fileAnswer.content)
      && (r.OpenDir? ==> r.dirAnswer.Listing? && a in t.dirs
                         && t.dirs[a].entries == r.dirAnswer.entries && t.dirs[a].next == 0)
  {
    hide Serve, Fresh, Enabled;
    HandedOut(states[o], requests[o], h);
  }

  // ---- a session like that --------------------------------------------------------------------------

  /** A session with one open file, at slot 0. */
  function OneFileSession(file: OpenFile): Session {
    Session(seq(SLOTS, i => if i == 0 then 1 else 0), map[1 := file], map[], 1)
  }

  lemma OneFileTable(file: OpenFile)
    ensures DirsInRange(OneFileSession(file)) && Resolve(OneFileSession(file), Slot(0)) == 1
  {
  }

  lemma OneOpen()
    ensures var s, r := Session(seq(SLOTS, _ => 0), map[], map[], 0), Open(Opened([], 1));
      && Fresh(s) && Enabled(s, r) && DirsInRange(s)
      && Serve(s, r) == (OneFileSession(OpenFile(0, [], 0)), HandleReply(0))
  {
    var s := Session(seq(SLOTS, _ => 0), map[], map[], 0);
    assert s.slots[0] == 0;
    assert s.slots[0 := 1] == OneFileSession(OpenFile(0, [], 0)).slots;
  }

  lemma OneTaken(n: nat)
    requires n > 0
    ensures Takes(n, [n]) && TotalTaken(n, [n]) == n
  {
    assert Takes(n - n, [n][1..]);
    assert TotalTaken(n - n, [n][1..]) == 0;
  }

  lemma OneWrite(target: seq<Byte>)
    requires target != []
    ensures var n, file := |target|, OpenFile(0, [], 0);
      var w := Request.Write(Slot(0), 0, target, true, [n]);
      && Enabled(OneFileSession(file), w)
      && TotalTaken(n, [n]) == n
      && Serve(OneFileSession(file), w) == (OneFileSession(OpenFile(0, target, n)), Status(OK))
  {
    var n, file := |target|, OpenFile(0, [], 0);
    OneFileTable(file);
    OneTaken(n);
    assert target[..n] == target;
    assert WriteAt([], 0, target) == target;
    assert map[1 := file][1 := OpenFile(0, target, n)] == map[1 := OpenFile(0, target, n)];
  }

  /** A read that leaves its file as it is leaves the session as it is. */
  lemma SameAgain(s: Session, r: Request, reply: Reply)
    requires DirsInRange(s) && r.Read? && Enabled(s, r) && Resolve(s, r.handle) in s.files
    requires ReadReply(s.files[Resolve(s, r.handle)], r) == (s.files[Resolve(s, r.handle)], reply)
    ensures Serve(s, r) == (s, reply)
  {
    assert s.files[Resolve(s, r.handle) := s.files[Resolve(s, r.handle)]] == s.files;
  }

  lemma TwoReads(target: seq<Byte>)
    requires 0 < |target| <= MAX_READ
    ensures var n, s := |target|, OneFileSession(OpenFile(0, target, |target|));
      var r1, r2 := Request.Read(Slot(0), 0, n, true, n), Request.Read(Slot(0), n, n, true, 0);
      && Enabled(s, r1) && Serve(s, r1) == (s, Data(target))
      && Enabled(s, r2) && Serve(s, r2) == (s, Status(EOF))
  {
    hide Serve;
    var n, s := |target|, OneFileSession(OpenFile(0, target, |target|));
    OneFileTable(OpenFile(0, target, n));
    assert target[0..n] == target;
    SameAgain(s, Request.Read(Slot(0), 0, n, true, n), Data(target));
    SameAgain(s, Request.Read(Slot(0), n, n, true, 0), Status(EOF));
  }

  lemma OneWriteTwoReads(requests: seq<Request>, replies: seq<Reply>, target: seq<Byte>)
    requires 0 < |target| <= MAX_READ
    requires requests == [Request.Write(Slot(0), 0, target, true, [|target|]),
                          Request.Read(Slot(0), 0, |target|, true, |target|),
                          Request.Read(Slot(0), |target|, |target|, true, 0)]
    requires replies == [Status(OK), Data(target), Status(EOF)]
    ensures CoversThenReads(requests, replies, Slot(0), 1, 2, target)
  {
    hide Agrees, Covered;
    var h, n := Slot(0), |target|;
    OneTaken(n);
    assert target[..n] == target;
    assert target[0..n] == target;
    assert PiecesOf(requests, h, 0) == [];
    assert PiecesOf(requests, h, 1) == [Piece(0, target)];
    assert Received(requests, replies, h, 1, 2) == [] + target;
    OnePieceCovers(target);
  }

  lemma OnePieceCovers(target: seq<Byte>)
    ensures Agrees(target, Piece(0, target))
    ensures forall p :: 0 <= p < |target| ==> Covered([Piece(0, target)], p)
  {
    assert target[0..|target|] == target;
    assert forall p :: 0 <= p < |target| ==> [Piece(0, target)][0].Covers(p);
  }

  /** A session as RoundTrip describes it: OPEN, one write, one read that brings everything, and
      one that meets the end. */
  lemma RoundTripHappens(target: seq<Byte>)
    requires 0 < |target| <= 65536 * 128
    ensures exists states: seq<Session>, requests: seq<Request>, replies: seq<Reply> ::
      IsRoundTrip(states, requests, replies, Slot(0), 0, 1, 2, target)
  {
    hide Serve, DirsInRange, Fresh, OneFileSession, Enabled, CoversThenReads;
    var n, h := |target|, Slot(0);
    var s0 := Session(seq(SLOTS, _ => 0), map[], map[], 0);
    var s1, s2 := OneFileSession(OpenFile(0, [], 0)), OneFileSession(OpenFile(0, target, n));
    var w := Request.Write(h, 0, target, true, [n]);
    var r1, r2 := Request.Read(h, 0, n, true, n), Request.Read(h, n, n, true, 0);
    var states, requests := [s0, s1, s2, s2, s2], [Open(Opened([], 1)), w, r1, r2];
    var replies := [HandleReply(0), Status(OK), Data(target), Status(EOF)];
    OneOpen();
    OneWrite(target);
    TwoReads(target);
    OneFileTable(OpenFile(0, [], 0));
    OneFileTable(OpenFile(0, target, n));
    assert IsSession(states, requests, replies);
    assert requests[1..] == [w, r1, r2] && replies[1..] == [Status(OK), Data(target), Status(EOF)];
    OneWriteTwoReads(requests[1..], replies[1..], target);
    assert IsRoundTrip(states, requests, replies, h, 0, 1, 2, target);
  }

  // ---- listing a directory ---------------------------------------------------------------------

  /** One request, as far as the iterator behind h is concerned. */
  ghost predicate DirStep(d: DirIterator, e: DirIterator, r: Request, reply: Reply, h: Handle) {
    d.next <= |d.entries| && if r == ReadDir(h) then (e, reply) == ReadDirReply(d) else e == d
  }

  /** The life of one iterator during a session. */
  ghost predicate DirLife(dir: seq<DirIterator>, requests: seq<Request>, replies: seq<Reply>, h: Handle) {
    && |dir| == |requests| + 1 && |replies| == |requests|
    && forall i {:trigger requests[i]} :: 0 <= i < |requests| ==>
         DirStep(dir[i], dir[i + 1], requests[i], replies[i], h)
  }

  /** A request leaves the iterator behind h alone, unless it is a READDIR on h. */
  lemma OneDir(s: Session, r: Request, h: Handle)
    requires Table(s) && Enabled(s, r) && DirsInRange(s) && Resolve(s, h) in s.dirs && r != Close(h)
    ensures var (t, reply) := Serve(s, r);
      var a := Resolve(s, h);
      && Resolve(t, h) == a && a in t.dirs
      && DirStep(s.dirs[a], t.dirs[a], r, reply, h)
  {
    hide WriteReply, ReadReply, ReadDirReply;
    if r.Close? && Resolve(s, r.handle) in Live(s) {
      CloseEffect(s, r.handle);
      assert r.handle.i != h.i;
    }
    if r.ReadDir? || r.Close? {
      assert Resolve(s, r.handle) == Resolve(s, h) ==> r.handle == h;
    }
  }

  lemma {:induction false} DirStaysOpen(states: seq<Session>, requests: seq<Request>, replies: seq<Reply>, h: Handle, i: nat)
    requires KeepsHandle(states, requests, replies, h) && Resolve(states[0], h) in states[0].dirs && i < |states|
    ensures Resolve(states[i], h) == Resolve(states[0], h) && Resolve(states[0], h) in states[i].dirs
  {
    if i > 0 {
      DirStaysOpen(states, requests, replies, h, i - 1);
      OneDir(states[i - 1], requests[i - 1], h);
      hide Serve, Table, Enabled, DirsInRange;
    }
  }

  /** Other handles do not interfere with the iterator behind h either. */
  lemma NoDirInterference(states: seq<Session>, requests: seq<Request>, replies: seq<Reply>, h: Handle) returns (dir: seq<DirIterator>)
    requires KeepsHandle(states, requests, replies, h) && Resolve(states[0], h) in states[0].dirs
    ensures DirLife(dir, requests, replies, h) && dir[0] == states[0].dirs[Resolve(states[0], h)]
  {
    forall i | 0 <= i < |states|
      ensures Resolve(states[i], h) == Resolve(states[0], h) && Resolve(states[0], h) in states[i].dirs
    {
      DirStaysOpen(states, requests, replies, h, i);
    }
    var a := Resolve(states[0], h);
    dir := seq(|states|, i requires 0 <= i < |states| => states[i].dirs[a]);
    forall i | 0 <= i < |requests| ensures DirStep(dir[i], dir[i + 1], requests[i], replies[i], h) {
      OneDir(states[i], requests[i], h);
      hide Serve, Table;
    }
  }

  /** How many of the first i requests are READDIRs on h. */
  function PagesAsked(requests: seq<Request>, h: Handle, i: nat): nat
    requires i <= |requests|
  {
    if i == 0 then 0 else PagesAsked(requests, h, i - 1) + if requests[i - 1] == ReadDir(h) then 1 else 0
  }

  /** All names that the first i replies brought to READDIRs on h, in order. */
  function Listed(requests: seq<Request>, replies: seq<Reply>, h: Handle, i: nat): seq<string>
    requires i <= |requests| == |replies|
  {
    if i == 0 then []
    else
      Listed(requests, replies, h, i - 1)
      + if requests[i - 1] == ReadDir(h) && replies[i - 1].Names? then replies[i - 1].names else []
  }

  /** The number of full or partial pages that n entries make. */
  function PageCount(n: nat): nat {
    (n + 99) / 100
  }

  lemma OnePage(d: DirIterator, k: nat)
    requires d.next == Min(READ_DIR_CHUNK_SIZE * k, |d.entries|)
    ensures var n := |d.entries|;
      var (e, reply) := ReadDirReply(d);
      && e.entries == d.entries && e.next == Min(READ_DIR_CHUNK_SIZE * (k + 1), n)
      && (if k < PageCount(n)
          then reply.Names? && 1 <= |reply.names| <= 100
               && reply.names == d.entries[d.next..e.next]
          else reply == Status(EOF) && d.next == e.next == n)
  {
  }

  lemma {:induction false} ListedSoFar(dir: seq<DirIterator>, requests: seq<Request>, replies: seq<Reply>, h: Handle, i: nat)
    requires DirLife(dir, requests, replies, h) && dir[0].next == 0 && i <= |requests|
    ensures var d := dir[i];
      && d.entries == dir[0].entries
      && d.next == Min(READ_DIR_CHUNK_SIZE * PagesAsked(requests, h, i), |d.entries|)
      && Listed(requests, replies, h, i) == d.entries[..d.next]
  {
    hide ReadDirReply, PageCount;
    if i > 0 {
      ListedSoFar(dir, requests, replies, h, i - 1);
      assert DirStep(dir[i - 1], dir[i], requests[i - 1], replies[i - 1], h);
      if requests[i - 1] == ReadDir(h) {
        OnePage(dir[i - 1], PagesAsked(requests, h, i - 1));
      }
    }
  }

  /** A READDIR on h after k others brings a page of 1 to 100 names while k is less than the number
      of pages, and EOF from then on; at an EOF, and at no page before it, all entries have been
      listed, each once and in order. */
  lemma PageReply(dir: seq<DirIterator>, requests: seq<Request>, replies: seq<Reply>, h: Handle, i: nat)
    requires DirLife(dir, requests, replies, h) && dir[0].next == 0 && i < |requests| && requests[i] == ReadDir(h)
    ensures var entries := dir[0].entries;
      if PagesAsked(requests, h, i) < PageCount(|entries|) then
        && replies[i].Names? && 1 <= |replies[i].names| <= 100
        && Listed(requests, replies, h, i) < entries
      else
        replies[i] == Status(EOF) && Listed(requests, replies, h, i) == entries
  {
    hide ReadDirReply;
    ListedSoFar(dir, requests, replies, h, i);
    assert DirStep(dir[i], dir[i + 1], requests[i], replies[i], h);
    OnePage(dir[i], PagesAsked(requests, h, i));
    assert dir[i].entries[..|dir[i].entries|] == dir[i].entries;
  }

  /** Listing a directory: after an OPENDIR that hands out h, and whatever else the session does,
      the READDIRs on h bring exactly the pages needed for the entries and then EOF. */
  lemma ListingIsComplete(states: seq<Session>, requests: seq<Request>, replies: seq<Reply>, h: Handle, o: nat, i: nat)
    requires HandsOut(states, requests, replies, o, h) && requests[o].OpenDir?
    requires o < i < |requests| && requests[i] == ReadDir(h)
    ensures requests[o].dirAnswer.Listing?
    ensures var entries := requests[o].dirAnswer.entries;
      var rs, ps, k := requests[o + 1..], replies[o + 1..], i - (o + 1);
      if PagesAsked(rs, h, k) < PageCount(|entries|) then
        && replies[i].Names? && 1 <= |replies[i].names| <= 100
        && Listed(rs, ps, h, k) < entries
      else
        replies[i] == Status(EOF) && Listed(rs, ps, h, k) == entries
  {
    hide Fresh, Enabled, DirsInRange, Serve, PagesAsked, Listed, PageCount;
    var ss, rs, ps := states[o + 1..], requests[o + 1..], replies[o + 1..];
    RestKeeps(states, requests, replies, o, h);
    AfterOpening(states, requests, replies, o, h);
    var dir := NoDirInterference(ss, rs, ps, h);
    PageReply(dir, rs, ps, h, i - (o + 1));
  }
}
