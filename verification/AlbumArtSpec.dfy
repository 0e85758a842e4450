/**
 The album art cache: at most one download per image, a bounded chain of redirects for each,
 and a count of the bytes on disk.
 */
module AlbumArtSpec {
  import opened Basics
  import opened AlbumArtNames

  const MAX_REDIRECTS: nat := 10

  /** A download.  transfer is the copy job it waits for, written what that job wrote. */
  datatype Job = Job(url: Url, transfer: Option<nat>, written: nat, redirects: nat, transfers: nat)
  {
    function FileName(): string { CacheFileName(url) }
  }

  /** What a download ended with: its hash, whether it succeeded, how many transfers it made. */
  datatype Ending = Ending(hash: string, ok: bool, transfers: nat)

  datatype Cache = Cache(
    fetching: map<string, Job>,
    disk: map<string, string>,      // hash to file name
    diskSize: int,
    files: map<string, nat>,        // the cache directory: sizes by file name
    nextTransfer: nat,
    created: nat,
    endings: seq<Ending>,
    requested: seq<string>)         // local images that the other device was asked for

  /** How a transfer ends.  Only replies from the network redirect or carry a status. */
  datatype Outcome = TransferError | Redirect | BadStatus | Fine

  /** opens: the cache file can be created or emptied for the next transfer; clears: it can be
      emptied to mark the download as failed. */
  datatype Event =
    | StartFetching(url: Url, opens: bool)
    | EndFetching(url: Url, payload: bool, opens: bool)
    | Writes(hash: string, n: nat)
    | Result(hash: string, transfer: nat, outcome: Outcome, opens: bool, clears: bool)

  // ---- a single download -------------------------------------------------------------------------

  /** The job reports its end and the cache takes it out of its table. */
  function Finished(c: Cache, hash: string, ok: bool): Cache
    requires hash in c.fetching
  {
    var job := c.fetching[hash];
    var d := c.(fetching := c.fetching - {hash}, endings := c.endings + [Ending(hash, ok, job.transfers)]);
    if ok then d.(disk := c.disk[hash := job.FileName()], diskSize := c.diskSize + job.written) else d
  }

  function GotData(c: Cache, hash: string, payload: bool, opens: bool): Cache
    requires hash in c.fetching
  {
    var job := c.fetching[hash];
    if job.transfer.Some? then c
    else if !payload || !opens then Finished(c, hash, false)
    else
      c.(files := c.files[job.FileName() := 0],
         fetching := c.fetching[hash := job.(transfer := Some(c.nextTransfer), written := 0, transfers := job.transfers + 1)],
         nextTransfer := c.nextTransfer + 1)
  }

  function Failed(c: Cache, hash: string, clears: bool): Cache
    requires hash in c.fetching
  {
    Finished(if clears then c.(files := c.files[c.fetching[hash].FileName() := 0]) else c, hash, false)
  }

  function Redirected(c: Cache, hash: string, opens: bool, clears: bool): Cache
    requires hash in c.fetching
  {
    var job := c.fetching[hash];
    if job.redirects + 1 > MAX_REDIRECTS then Failed(c, hash, clears)
    else GotData(c.(fetching := c.fetching[hash := job.(redirects := job.redirects + 1, transfer := None)]), hash, true, opens)
  }

  // ---- the cache ---------------------------------------------------------------------------------

  ghost predicate Enabled(c: Cache, e: Event) {
    match e
    case StartFetching(url, _) => WellFormed(url)
    case EndFetching(url, _, _) => WellFormed(url)
    case Writes(hash, _) => hash in c.fetching && c.fetching[hash].transfer.Some?
    case Result(hash, _, _, _, _) => hash in c.fetching
  }

  function Step(c: Cache, e: Event): Cache
    requires Enabled(c, e)
  {
    match e
    case StartFetching(url, opens) =>
      if url.text == "" || url.hash in c.disk || url.hash in c.fetching then c
      else
        var d := c.(fetching := c.fetching[url.hash := Job(url, None, 0, 0, 0)], created := c.created + 1);
        if url.local then d.(requested := c.requested + [url.text]) else GotData(d, url.hash, true, opens)
    case EndFetching(url, payload, opens) =>
      if url.hash in c.fetching then GotData(c, url.hash, payload, opens) else c
    case Writes(hash, n) =>
      var job := c.fetching[hash];
      c.(files := c.files[job.FileName() := (if job.FileName() in c.files then c.files[job.FileName()] else 0) + n],
         fetching := c.fetching[hash := job.(written := job.written + n)])
    case Result(hash, transfer, outcome, opens, clears) =>
      if c.fetching[hash].transfer != Some(transfer) then c
      else match outcome
           case TransferError => Failed(c, hash, clears)
           case BadStatus => Failed(c, hash, clears)
           case Redirect => Redirected(c, hash, opens, clears)
           case Fine => Finished(c, hash, true)
  }
}
