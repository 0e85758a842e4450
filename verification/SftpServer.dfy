/**
 The session object: handle maps that requests insert into and erase from, the loop around
 partial device writes, and the loop that fills a page of directory entries.  Every request
 is proved to do exactly what SftpSpec says and to be answered exactly once.
 */
module SftpServer {
  import opened Basics
  import opened SftpSpec
  import opened SftpTransfer

  class SftpServerSession {
    var slots: seq<Address>
    var openFiles: map<Address, OpenFile>
    var openDirs: map<Address, DirIterator>
    var nextId: nat
    var replies: seq<Reply>

    ghost predicate Valid()
      reads this
    {
      DirsInRange(View())
    }

    ghost function View(): Session
      reads this
    {
      Session(slots, openFiles, openDirs, nextId)
    }

    constructor ()
      ensures Valid() && replies == []
      ensures slots == seq(SLOTS, _ => 0) && openFiles == map[] && openDirs == map[] && nextId == 0
    {
      slots := seq(SLOTS, _ => 0);
      openFiles, openDirs, nextId, replies := map[], map[], 0, [];
    }

    /** The pointer libssh keeps for a handle, null if it keeps none. */
    function KeptPointer(h: Handle): Address
      reads this
    {
      if h.Slot? && h.i < |slots| then slots[h.i] else 0
    }

    /** The object of the wanted kind behind a handle, if the handle leads to one. */
    function FindHandle<T>(h: Handle, handles: map<Address, T>): (found: Option<Address>)
      reads this
      ensures found.Some? <==> Resolve(View(), h) in handles
      ensures found.Some? ==> found.value == Resolve(View(), h)
    {
      var a := KeptPointer(h);
      if a in handles then Some(a) else None
    }

    method Answer(r: Reply)
      modifies this`replies
      ensures replies == old(replies) + [r]
    {
      replies := replies + [r];
    }

    /** Gives a new object a slot and answers with the handle of that slot. */
    method ReplyHandle(a: Address)
      modifies this`slots, this`replies
      ensures (View(), replies) == (Publish(old(View()), a).0, old(replies) + [Publish(old(View()), a).1])
    {
      var i := FirstSlot(slots, 0);
      if i < |slots| {
        slots := slots[i := a];
        Answer(HandleReply(i));
      } else {
        Answer(NoHandle);
      }
    }

    method ReplyOpenDir(answer: OpenDirAnswer)
      requires Valid() && Enabled(View(), OpenDir(answer))
      modifies this
      ensures Valid()
      ensures (View(), replies) == (Serve(old(View()), OpenDir(answer)).0, old(replies) + [Serve(old(View()), OpenDir(answer)).1])
    {
      match answer
      case NoSuchPath => Answer(Status(NO_SUCH_FILE));
      case NotADirectory => Answer(Status(Code.NOT_A_DIRECTORY));
      case Unreadable => Answer(Status(PERMISSION_DENIED));
      case Listing(entries, a) =>
        openDirs := openDirs[a := DirIterator(nextId, entries, 0)];
        nextId := nextId + 1;
        ReplyHandle(a);
    }

    method ReplyReadDir(h: Handle)
      requires Valid()
      modifies this
      ensures Valid()
      ensures (View(), replies) == (Serve(old(View()), ReadDir(h)).0, old(replies) + [Serve(old(View()), ReadDir(h)).1])
    {
      var found := FindHandle(h, openDirs);
      if found.None? {
        Answer(Status(INVALID_HANDLE));
        return;
      }
      var a := found.value;
      var d := openDirs[a];
      var names := [];
      var i := 0;
      while i < READ_DIR_CHUNK_SIZE && d.next < |d.entries|
        invariant 0 <= i <= READ_DIR_CHUNK_SIZE
        invariant d == openDirs[a].(next := openDirs[a].next + i) && d.next <= |d.entries|
        invariant names == d.entries[openDirs[a].next..d.next]
      {
        names := names + [d.entries[d.next]];
        d := d.(next := d.next + 1);
        i := i + 1;
      }
      openDirs := openDirs[a := d];
      if i == 0 {
        Answer(Status(EOF));
      } else {
        Answer(Names(names));
      }
    }

    method ReplyOpenFile(answer: OpenFileAnswer)
      requires Valid() && Enabled(View(), Open(answer))
      modifies this
      ensures Valid()
      ensures (View(), replies) == (Serve(old(View()), Open(answer)).0, old(replies) + [Serve(old(View()), Open(answer)).1])
    {
      match answer
      case Refused => Answer(Status(FAILURE));
      case Opened(content, a) =>
        openFiles := openFiles[a := OpenFile(nextId, content, 0)];
        nextId := nextId + 1;
        ReplyHandle(a);
    }

    method ReplyReadFile(r: Request)
      requires Valid() && r.Read? && Enabled(View(), r)
      modifies this
      ensures Valid()
      ensures (View(), replies) == (Serve(old(View()), r).0, old(replies) + [Serve(old(View()), r).1])
    {
      var found := FindHandle(r.handle, openFiles);
      if found.None? {
        Answer(Status(INVALID_HANDLE));
        return;
      }
      var a := found.value;
      var size := Min(r.len, MAX_READ);
      if !r.seeks {
        assert openFiles[a := openFiles[a]] == openFiles;
        Answer(Status(FAILURE));
        return;
      }
      openFiles := openFiles[a := openFiles[a].(position := r.offset)];
      if r.got < 0 {
        Answer(Status(FAILURE));
        return;
      }
      var f := openFiles[a];
      var bytes := if r.got == 0 then [] else f.content[f.position..f.position + r.got];
      openFiles := openFiles[a := f.(position := f.position + r.got)];
      assert openFiles == old(openFiles)[a := old(openFiles)[a].(position := r.offset + r.got)];
      if |bytes| == 0 && size != 0 {
        Answer(Status(EOF));
      } else {
        Answer(Data(bytes));
      }
    }

    /** The device takes a prefix of data at the file's position. */
    static function Device(f: OpenFile, data: seq<Byte>, n: nat): OpenFile
      requires n <= |data|
    {
      f.(content := WriteAt(f.content, f.position, data[..n]), position := f.position + n)
    }

    method ReplyWriteFile(r: Request)
      requires Valid() && r.Write? && Enabled(View(), r)
      modifies this
      ensures Valid()
      ensures (View(), replies) == (Serve(old(View()), r).0, old(replies) + [Serve(old(View()), r).1])
    {
      hide WriteAt;
      var found := FindHandle(r.handle, openFiles);
      if found.None? {
        Answer(Status(INVALID_HANDLE));
        return;
      }
      var a := found.value;
      if !r.seeks {
        assert openFiles[a := openFiles[a]] == openFiles;
        Answer(Status(FAILURE));
        return;
      }
      var f, ok := WriteAll(openFiles[a].(position := r.offset), r.data, r.taken);
      openFiles := openFiles[a := f];
      if ok {
        Answer(Status(OK));
      } else {
        Answer(Status(FAILURE));
      }
    }

    /** The loop around the device writes: it stops when all is taken or a write fails. */
    static method WriteAll(file: OpenFile, bytes: seq<Byte>, taken: seq<int>) returns (f: OpenFile, ok: bool)
      requires Takes(|bytes|, taken)
      ensures var n := TotalTaken(|bytes|, taken);
        && ok == (n == |bytes|)
        && f == file.(content := WriteAt(file.content, file.position, bytes[..n]), position := file.position + n)
    {
      hide WriteAt;
      f, ok := file, true;
      var size, data, answers := |bytes|, bytes, taken;
      ghost var done := 0;
      assert bytes[..0] == [];
      NothingWritten(file.content, file.position);
      while size > 0
        invariant size == |data| && done + size == |bytes| && data == bytes[done..]
        invariant Takes(size, answers)
        invariant TotalTaken(|bytes|, taken) == done + TotalTaken(size, answers)
        invariant f == file.(content := WriteAt(file.content, file.position, bytes[..done]),
                             position := file.position + done)
      {
        var n := answers[0];
        if n < 0 {
          ok := false;
          return;
        }
        Chunks(file.content, file.position, bytes, done, n);
        f := Device(f, data, n);
        answers := answers[1..];
        size := size - n;
        data := data[n..];
        done := done + n;
      }
    }

    method ReplyClose(h: Handle)
      requires Valid()
      modifies this
      ensures Valid()
      ensures (View(), replies) == (Serve(old(View()), Close(h)).0, old(replies) + [Serve(old(View()), Close(h)).1])
    {
      var a := KeptPointer(h);
      if a in openFiles {
        openFiles := openFiles - {a};
      } else if a in openDirs {
        openDirs := openDirs - {a};
      } else {
        Answer(Status(INVALID_HANDLE));
        return;
      }
      var i := FirstSlot(slots, a);
      if i < |slots| {
        slots := slots[i := 0];
      }
      Answer(Status(OK));
    }

    method ReplyReadLink(target: string)
      modifies this`replies
      ensures replies == old(replies) + [PathReply(ReadLink(target))]
    {
      if target == "" {
        Answer(Status(NO_SUCH_FILE));
      } else {
        Answer(Names([target]));
      }
    }

    method ReplyRealPath(canonical: string)
      modifies this`replies
      ensures replies == old(replies) + [PathReply(RealPath(canonical))]
    {
      if canonical == "" {
        Answer(Status(NO_SUCH_FILE));
      } else {
        Answer(Names([canonical]));
      }
    }

    method ReplyStat(follow: bool, isLink: bool, present: bool)
      modifies this`replies
      ensures replies == old(replies) + [StatReply(follow, isLink, present)]
    {
      if !isLink && !present {
        Answer(Status(NO_SUCH_FILE));
      } else if !follow && isLink {
        Answer(Status(OP_UNSUPPORTED));
      } else {
        Answer(Attributes);
      }
    }

    method ReplyDone(done: bool, code: Code)
      modifies this`replies
      ensures replies == old(replies) + [DoneOr(done, code)]
    {
      if done {
        Answer(Status(OK));
      } else {
        Answer(Status(code));
      }
    }

    /** An existing target is removed first. */
    method ReplyRename(r: PathRequest)
      requires r.Rename?
      modifies this`replies
      ensures replies == old(replies) + [PathReply(r)]
    {
      if !r.sourceExists && !r.sourceIsLink {
        Answer(Status(NO_SUCH_FILE));
        return;
      }
      if r.targetExists {
        if !r.targetRemoved {
          Answer(Status(FAILURE));
          return;
        }
      }
      ReplyDone(r.renamed, FAILURE);
    }

    method ReplyPath(p: PathRequest)
      modifies this`replies
      ensures replies == old(replies) + [PathReply(p)]
    {
      match p
      case ReadLink(target) => ReplyReadLink(target);
      case RealPath(canonical) => ReplyRealPath(canonical);
      case Stat(isLink, present) => ReplyStat(false, isLink, present);
      case LStat(isLink, present) => ReplyStat(true, isLink, present);
      case Remove(removed) => ReplyDone(removed, FAILURE);
      case MakeDir(made, dirExists) => ReplyDone(made, if dirExists then FILE_ALREADY_EXISTS else FAILURE);
      case RemoveDir(removed) => ReplyDone(removed, FAILURE);
      case Rename(_, _, _, _, _) => ReplyRename(p);
      case Symlink(linked) => ReplyDone(linked, FAILURE);
    }

    /** Every request that arrives gets exactly one reply, the one SftpSpec gives. */
    method ReadMessage(r: Request)
      requires Valid() && Enabled(View(), r)
      modifies this
      ensures Valid()
      ensures (View(), replies) == (Serve(old(View()), r).0, old(replies) + [Serve(old(View()), r).1])
    {
      match r
      case OpenDir(answer) => ReplyOpenDir(answer);
      case ReadDir(h) => ReplyReadDir(h);
      case Open(answer) => ReplyOpenFile(answer);
      case Read(_, _, _, _, _) => ReplyReadFile(r);
      case Write(_, _, _, _, _) => ReplyWriteFile(r);
      case Close(h) => ReplyClose(h);
      case OnPath(p) => ReplyPath(p);
      case Unsupported => Answer(Status(OP_UNSUPPORTED));
    }
  }

  lemma NothingWritten(content: seq<Byte>, offset: nat)
    ensures WriteAt(content, offset, []) == content
  {
  }

  /** Writing the next chunk of data where the last one ended. */
  lemma Chunks(content: seq<Byte>, offset: nat, data: seq<Byte>, done: nat, n: nat)
    requires done + n <= |data|
    ensures WriteAt(WriteAt(content, offset, data[..done]), offset + done, data[done..][..n])
         == WriteAt(content, offset, data[..done + n])
  {
    WriteAtSplit(content, offset, data[..done + n], done);
    assert data[..done + n][..done] == data[..done];
    assert data[..done + n][done..] == data[done..][..n];
  }
}
