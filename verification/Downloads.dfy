/**
 Download jobs choose a destination that does not exist yet.  Over any sequence of jobs no
 file that was there before, and no other download, is ever overwritten.
 */
module Downloads {
  import opened FileHelper
  import opened Basics

  datatype Path = Path(dir: string, name: string)

  datatype Entry = Folder | File(content: seq<Byte>)

  type Files = map<Path, Entry>

  function NamesIn(files: Files, dir: string): set<string> {
    set p | p in files && p.dir == dir :: p.name
  }

  class FileSystem {
    var files: Files

    constructor (files: Files)
      ensures this.files == files
    {
      this.files := files;
    }

    /** Opening for writing creates the file or empties it. */
    method OpenForWriting(p: Path)
      modifies this
      ensures files == old(files)[p := File([])]
    {
      files := files[p := File([])];
    }
  }

  datatype StartError = CannotCreateFolder | CannotOpenFile

  class DownloadJob {
    const disk: FileSystem
    var destination: Path
    var error: Option<StartError>
    var copying: bool
    var results: seq<StartError>    // one entry for each result that is emitted before the copy

    constructor (disk: FileSystem, destination: Path)
      ensures this.disk == disk && this.destination == destination && error.None? && !copying && results == []
    {
      this.disk, this.destination := disk, destination;
      error, copying, results := None, false, [];
    }

    /** doStart up to the start of the copy: the disk may refuse to make the folder or to
        open the file. */
    method DoStart(folderOk: bool, openOk: bool)
      requires !copying
      modifies this, disk
      ensures if folderOk then FirstFreePath(old(disk.files), old(destination), destination)
              else destination == old(destination)
      ensures copying == (folderOk && openOk)
      ensures copying ==> Started(old(disk.files), old(destination), disk.files, destination)
      ensures !copying ==> disk.files == old(disk.files)
      ensures error == if !folderOk then Some(CannotCreateFolder)
                       else if !openOk then Some(CannotOpenFile) else old(error)
      ensures results == if copying then old(results) else old(results) + [error.value]
    {
      if !folderOk {
        error := Some(CannotCreateFolder);
        results := results + [CannotCreateFolder];
        return;
      }
      if destination in disk.files {
        ghost var wanted := destination;
        var name, index := NonexistingFile(destination.name, NamesIn(disk.files, destination.dir));
        destination := Path(destination.dir, name);
        FreePath(disk.files, wanted, index);
      } else {
        FreePath(disk.files, destination, 0);
      }
      if !openOk {
        error := Some(CannotOpenFile);
        results := results + [CannotOpenFile];
        return;
      }
      disk.OpenForWriting(destination);
      copying := true;
    }
  }

  /** A path exists exactly if its name is among the names of its directory. */
  lemma NameExists(files: Files, p: Path)
    ensures p in files <==> p.name in NamesIn(files, p.dir)
  {
    if p.name in NamesIn(files, p.dir) {
      var q :| q in files && q.dir == p.dir && q.name == p.name;
      assert q == p;
    }
  }

  lemma FreePath(files: Files, wanted: Path, index: nat)
    requires FirstFree(wanted.name, NamesIn(files, wanted.dir), index) || (index == 0 && wanted !in files)
    ensures FirstFreePath(files, wanted, Path(wanted.dir, Candidate(wanted.name, index)))
  {
    NameExists(files, wanted);
    NameExists(files, Path(wanted.dir, Candidate(wanted.name, index)));
    assert FirstFree(wanted.name, NamesIn(files, wanted.dir), index);
  }

  /** chosen is the wanted path, or the first numbered variant of it in the same directory
      that does not exist. */
  ghost predicate FirstFreePath(files: Files, wanted: Path, chosen: Path) {
    && chosen.dir == wanted.dir
    && chosen !in files
    && exists i :: FirstFree(wanted.name, NamesIn(files, wanted.dir), i) && chosen.name == Candidate(wanted.name, i)
  }

  ghost predicate Started(before: Files, wanted: Path, after: Files, chosen: Path) {
    FirstFreePath(before, wanted, chosen) && after == before[chosen := File([])]
  }

  // ---- many downloads --------------------------------------------------------------------------

  datatype Event =
    | Start(wanted: Path, chosen: Path)      // a job starts copying
    | StartFails
    | Save(owner: nat, content: seq<Byte>)   // the job started at event `owner` writes its file

  ghost predicate IsRun(states: seq<Files>, events: seq<Event>) {
    && |states| == |events| + 1
    && forall i :: 0 <= i < |events| ==> IsStep(states, events, i)
  }

  ghost predicate IsStep(states: seq<Files>, events: seq<Event>, i: nat)
    requires |states| == |events| + 1 && i < |events|
  {
    match events[i]
    case Start(wanted, chosen) => Started(states[i], wanted, states[i + 1], chosen)
    case StartFails => states[i + 1] == states[i]
    case Save(owner, content) =>
      owner < i && events[owner].Start? && states[i + 1] == states[i][events[owner].chosen := File(content)]
  }

  lemma {:induction false} EntriesStay(states: seq<Files>, events: seq<Event>, i: nat, j: nat, p: Path)
    requires IsRun(states, events) && i <= j < |states| && p in states[i]
    ensures p in states[j]
    decreases j - i
  {
    if i < j {
      EntriesStay(states, events, i, j - 1, p);
      assert IsStep(states, events, j - 1);
    }
  }

  lemma StartStep(states: seq<Files>, events: seq<Event>, i: nat)
    requires IsRun(states, events) && i < |events| && events[i].Start?
    ensures events[i].chosen !in states[i] && events[i].chosen in states[i + 1]
  {
    assert IsStep(states, events, i);
  }

  /** Two downloads never share a destination. */
  lemma DestinationsDistinct(states: seq<Files>, events: seq<Event>, i: nat, j: nat)
    requires IsRun(states, events) && i < j < |events| && events[i].Start? && events[j].Start?
    ensures events[i].chosen != events[j].chosen
  {
    assert |states| == |events| + 1;
    hide IsRun, IsStep;
    StartStep(states, events, i);
    StartStep(states, events, j);
    EntriesStay(states, events, i + 1, j, events[i].chosen);
  }

  /** Whatever existed when a job started, other than what older jobs are still writing to
      themselves, keeps its content for the rest of the run. */
  lemma {:induction false} NeverOverwritten(states: seq<Files>, events: seq<Event>, i: nat, j: nat, p: Path)
    requires IsRun(states, events) && i <= j < |states| && p in states[i]
    requires forall k :: 0 <= k < i && events[k].Start? ==> events[k].chosen != p
    ensures p in states[j] && states[j][p] == states[i][p]
    decreases j - i
  {
    if i < j {
      NeverOverwritten(states, events, i, j - 1, p);
      assert IsStep(states, events, j - 1);
      if events[j - 1].Save? {
        var owner := events[j - 1].owner;
        if owner >= i {
          assert IsStep(states, events, owner);
          EntriesStay(states, events, i, owner, p);
        }
      }
    }
  }

  /** What the job started at event i has written last before event j. */
  function LastSaved(events: seq<Event>, i: nat, j: nat): seq<Byte>
    requires j <= |events|
  {
    if j == 0 then []
    else if events[j - 1].Save? && events[j - 1].owner == i then events[j - 1].content
    else LastSaved(events, i, j - 1)
  }

  lemma OthersLeaveAlone(states: seq<Files>, events: seq<Event>, i: nat, k: nat)
    requires IsRun(states, events) && i < k < |events| && events[i].Start?
    requires events[i].chosen in states[k] && !(events[k].Save? && events[k].owner == i)
    ensures events[i].chosen in states[k + 1] && states[k + 1][events[i].chosen] == states[k][events[i].chosen]
  {
    assert IsStep(states, events, k);
    if events[k].Save? {
      var owner := events[k].owner;
      if owner < i { DestinationsDistinct(states, events, owner, i); }
      if owner > i { DestinationsDistinct(states, events, i, owner); }
    }
  }

  lemma {:induction false} NothingSavedBefore(states: seq<Files>, events: seq<Event>, i: nat, j: nat)
    requires IsRun(states, events) && j <= i < |events|
    ensures LastSaved(events, i, j) == []
  {
    if j > 0 {
      NothingSavedBefore(states, events, i, j - 1);
      assert IsStep(states, events, j - 1);
    }
  }

  /** A download's file holds exactly what its own job wrote last; no other job changes it. */
  lemma {:induction false} OwnFileKept(states: seq<Files>, events: seq<Event>, i: nat, j: nat)
    requires IsRun(states, events) && i < j < |states| && events[i].Start?
    ensures events[i].chosen in states[j] && states[j][events[i].chosen] == File(LastSaved(events, i, j))
    decreases j - i
  {
    assert IsStep(states, events, j - 1);
    hide IsRun, FirstFreePath;
    if i + 1 < j {
      OwnFileKept(states, events, i, j - 1);
      if !(events[j - 1].Save? && events[j - 1].owner == i) {
        OthersLeaveAlone(states, events, i, j - 1);
      }
    } else {
      NothingSavedBefore(states, events, i, i);
    }
  }

  /** A received name is reduced to one safe component, and so is every variant tried for it:
      the download lands in the folder for incoming files, whatever the peer called it. */
  lemma ReceivedNameStaysInFolder(before: Files, folder: string, received: string, after: Files, chosen: Path)
    requires Started(before, Path(folder, Escaped(received)), after, chosen)
    ensures chosen.dir == folder && Safe(chosen.name) && chosen !in before
  {
    EscapedIsSafe(received);
    var i :| FirstFree(Escaped(received), NamesIn(before, folder), i) && chosen.name == Candidate(Escaped(received), i);
    CandidateIsSafe(Escaped(received), i);
  }
}
