/**
 One SFTP session: what each request on files, directories and handles does to the session
 and what it answers.
 */
module SftpSpec {
  import opened Basics

  type Address = nat        // where an open object lives; 0 is the null pointer

  const SLOTS: nat := 256
  const READ_DIR_CHUNK_SIZE: nat := 100
  const MAX_READ: nat := 65536 * 128

  /** id tells objects apart that live at the same address one after the other. */
  datatype OpenFile = OpenFile(id: nat, content: seq<Byte>, position: nat)
  datatype DirIterator = DirIterator(id: nat, entries: seq<string>, next: nat)

  datatype Session = Session(
    slots: seq<Address>,             // libssh's handle table
    files: map<Address, OpenFile>,
    dirs: map<Address, DirIterator>,
    nextId: nat)

  /** A handle as the client sends it: libssh reads a slot number from it, or nothing. */
  datatype Handle = Malformed | Slot(i: nat)

  datatype OpenDirAnswer = NoSuchPath | NotADirectory | Unreadable | Listing(entries: seq<string>, at: Address)
  datatype OpenFileAnswer = Refused | Opened(content: seq<Byte>, at: Address)

  /** A request on paths, with what the file system answers to it; a link or a canonical path is
      empty if there is none. */
  datatype PathRequest =
    | ReadLink(target: string)
    | RealPath(canonical: string)
    | Stat(isLink: bool, present: bool)
    | LStat(isLink: bool, present: bool)
    | Remove(removed: bool)
    | MakeDir(made: bool, dirExists: bool)
    | RemoveDir(removed: bool)
    | Rename(sourceExists: bool, sourceIsLink: bool, targetExists: bool, targetRemoved: bool, renamed: bool)
    | Symlink(linked: bool)

  /** A request with what the file system answers to it.  taken are the counts of the single
      device writes, -1 for an error; got is the count of the device read. */
  datatype Request =
    | OpenDir(dirAnswer: OpenDirAnswer)
    | ReadDir(handle: Handle)
    | Open(fileAnswer: OpenFileAnswer)
    | Read(handle: Handle, offset: nat, len: nat, seeks: bool, got: int)
    | Write(handle: Handle, offset: nat, data: seq<Byte>, seeks: bool, taken: seq<int>)
    | Close(handle: Handle)
    | OnPath(path: PathRequest)
    | Unsupported

  datatype Code = OK | EOF | NO_SUCH_FILE | PERMISSION_DENIED | FAILURE | OP_UNSUPPORTED
                | INVALID_HANDLE | NOT_A_DIRECTORY | FILE_ALREADY_EXISTS

  datatype Reply =
    | Status(code: Code)
    | HandleReply(slot: nat)
    | NoHandle                       // the table was full
    | Names(names: seq<string>)
    | Data(bytes: seq<Byte>)
    | Attributes                     // of the file, or of the target of the link

  // ---- the handle table --------------------------------------------------------------------

  function Resolve(s: Session, h: Handle): Address {
    if h.Slot? && h.i < |s.slots| then s.slots[h.i] else 0
  }

  /** The first slot that holds a, or the number of slots. */
  function FirstSlot(slots: seq<Address>, a: Address): (i: nat)
    ensures i <= |slots| && (i < |slots| ==> slots[i] == a)
    ensures forall k :: 0 <= k < i ==> slots[k] != a
  {
    if slots == [] || slots[0] == a then 0
    else
      var i := FirstSlot(slots[1..], a) + 1;
      assert forall k :: 1 <= k < i ==> slots[k] == slots[1..][k - 1];
      i
  }

  function Publish(s: Session, a: Address): (Session, Reply) {
    var i := FirstSlot(s.slots, 0);
    if i < |s.slots| then (s.(slots := s.slots[i := a]), HandleReply(i)) else (s, NoHandle)
  }

  function Forget(s: Session, a: Address): Session {
    var i := FirstSlot(s.slots, a);
    if i < |s.slots| then s.(slots := s.slots[i := 0]) else s
  }

  // ---- file contents ---------------------------------------------------------------------------

  function Min(a: int, b: int): int { if a < b then a else b }

  function Zeros(n: nat): (z: seq<Byte>)
    ensures |z| == n && forall k :: 0 <= k < n ==> z[k] == 0
  {
    seq(n, _ => 0 as Byte)
  }

  /** Writing past the end fills the gap with zeros; writing nothing changes nothing. */
  function WriteAt(content: seq<Byte>, offset: nat, data: seq<Byte>): seq<Byte> {
    if data == [] then content
    else
      var padded := if offset <= |content| then content else content + Zeros(offset - |content|);
      padded[..offset] + data + if offset + |data| <= |padded| then padded[offset + |data|..] else []
  }

  function ReadableAt(content: seq<Byte>, offset: nat, len: nat): nat {
    if offset >= |content| then 0 else Min(len, |content| - offset)
  }

  /** Device writes take at least one byte each, until all is taken or one fails. */
  predicate Takes(size: nat, taken: seq<int>) {
    size == 0 || (taken != [] && (taken[0] < 0 || (1 <= taken[0] <= size && Takes(size - taken[0], taken[1..]))))
  }

  function TotalTaken(size: nat, taken: seq<int>): (n: nat)
    requires Takes(size, taken)
    ensures n <= size
  {
    if size == 0 || taken[0] < 0 then 0 else taken[0] + TotalTaken(size - taken[0], taken[1..])
  }

  // ---- requests ----------------------------------------------------------------------------------

  /** What the allocator and the devices can answer.  Addresses of closed objects may come back. */
  ghost predicate Enabled(s: Session, r: Request) {
    match r
    case OpenDir(Listing(_, a)) => a != 0 && a !in s.files && a !in s.dirs
    case Open(Opened(_, a)) => a != 0 && a !in s.files && a !in s.dirs
    case Read(h, offset, len, _, got) =>
      Resolve(s, h) in s.files ==>
        var n := ReadableAt(s.files[Resolve(s, h)].content, offset, Min(len, MAX_READ));
        got < 0 || (got <= n && (n > 0 ==> got > 0))
    case Write(_, _, data, _, taken) => Takes(|data|, taken)
    case _ => true
  }

  function ReadDirReply(d: DirIterator): (DirIterator, Reply)
    requires d.next <= |d.entries|
  {
    var end := Min(d.next + READ_DIR_CHUNK_SIZE, |d.entries|);
    (d.(next := end), if end == d.next then Status(EOF) else Names(d.entries[d.next..end]))
  }

  function ReadReply(f: OpenFile, r: Request): (OpenFile, Reply)
    requires r.Read? && (r.got >= 0 ==> r.got <= ReadableAt(f.content, r.offset, Min(r.len, MAX_READ)))
  {
    if !r.seeks then (f, Status(FAILURE))
    else if r.got < 0 then (f.(position := r.offset), Status(FAILURE))
    else
      (f.(position := r.offset + r.got),
       if r.got == 0 && r.len != 0 then Status(EOF)
       else Data(if r.got == 0 then [] else f.content[r.offset..r.offset + r.got]))
  }

  function WriteReply(f: OpenFile, r: Request): (OpenFile, Reply)
    requires r.Write? && Takes(|r.data|, r.taken)
  {
    if !r.seeks then (f, Status(FAILURE))
    else
      var n := TotalTaken(|r.data|, r.taken);
      (f.(content := WriteAt(f.content, r.offset, r.data[..n]), position := r.offset + n),
       if n == |r.data| then Status(OK) else Status(FAILURE))
  }

  function StatReply(follow: bool, isLink: bool, present: bool): Reply {
    if !isLink && !present then Status(NO_SUCH_FILE)
    else if !follow && isLink then Status(OP_UNSUPPORTED)
    else Attributes
  }

  function DoneOr(done: bool, code: Code): Reply {
    Status(if done then OK else code)
  }

  /** STAT is served without following links and LSTAT with. */
  function PathReply(p: PathRequest): Reply {
    match p
    case ReadLink(target) => if target == "" then Status(NO_SUCH_FILE) else Names([target])
    case RealPath(canonical) => if canonical == "" then Status(NO_SUCH_FILE) else Names([canonical])
    case Stat(isLink, present) => StatReply(false, isLink, present)
    case LStat(isLink, present) => StatReply(true, isLink, present)
    case Remove(removed) => DoneOr(removed, FAILURE)
    case MakeDir(made, dirExists) => DoneOr(made, if dirExists then FILE_ALREADY_EXISTS else FAILURE)
    case RemoveDir(removed) => DoneOr(removed, FAILURE)
    case Rename(sourceExists, sourceIsLink, targetExists, targetRemoved, renamed) =>
      if !sourceExists && !sourceIsLink then Status(NO_SUCH_FILE)
      else DoneOr((targetExists ==> targetRemoved) && renamed, FAILURE)
    case Symlink(linked) => DoneOr(linked, FAILURE)
  }

  ghost predicate DirsInRange(s: Session) {
    forall a :: a in s.dirs ==> s.dirs[a].next <= |s.dirs[a].entries|
  }

  function Serve(s: Session, r: Request): (Session, Reply)
    requires Enabled(s, r) && DirsInRange(s)
  {
    match r
    case OpenDir(answer) => (
      match answer
      case NoSuchPath => (s, Status(NO_SUCH_FILE))
      case NotADirectory => (s, Status(Code.NOT_A_DIRECTORY))
      case Unreadable => (s, Status(PERMISSION_DENIED))
      case Listing(entries, a) =>
        Publish(s.(dirs := s.dirs[a := DirIterator(s.nextId, entries, 0)], nextId := s.nextId + 1), a))
    case Open(answer) => (
      match answer
      case Refused => (s, Status(FAILURE))
      case Opened(content, a) =>
        Publish(s.(files := s.files[a := OpenFile(s.nextId, content, 0)], nextId := s.nextId + 1), a))
    case ReadDir(h) =>
      var a := Resolve(s, h);
      if a !in s.dirs then (s, Status(INVALID_HANDLE))
      else
        var (d, reply) := ReadDirReply(s.dirs[a]);
        (s.(dirs := s.dirs[a := d]), reply)
    case Read(h, _, _, _, _) =>
      var a := Resolve(s, h);
      if a !in s.files then (s, Status(INVALID_HANDLE))
      else
        var (f, reply) := ReadReply(s.files[a], r);
        (s.(files := s.files[a := f]), reply)
    case Write(h, _, _, _, _) =>
      var a := Resolve(s, h);
      if a !in s.files then (s, Status(INVALID_HANDLE))
      else
        var (f, reply) := WriteReply(s.files[a], r);
        (s.(files := s.files[a := f]), reply)
    case Close(h) =>
      var a := Resolve(s, h);
      if a in s.files then (Forget(s.(files := s.files - {a}), a), Status(OK))
      else if a in s.dirs then (Forget(s.(dirs := s.dirs - {a}), a), Status(OK))
      else (s, Status(INVALID_HANDLE))
    case OnPath(p) => (s, PathReply(p))
    case Unsupported => (s, Status(OP_UNSUPPORTED))
  }
}
