/**
 The cache object: its table of downloads, its index of the cache directory and its byte
 count, updated by requests, payloads and the ends of transfers.
 */
module AlbumArtCaches {
  import opened Basics
  import opened FileHelper
  import opened AlbumArtNames
  import opened AlbumArtSpec
  import opened AlbumArtAccounting

  /** The index of a directory of which the files in left are still to be looked at. */
  ghost predicate Scanned(disk: map<string, string>, directory: map<string, nat>, left: set<string>) {
    && disk.Keys == (set f | f in directory && f !in left :: BaseName(f))
    && Indexed(disk, directory)
  }

  lemma ScanOne(disk: map<string, string>, directory: map<string, nat>, left: set<string>, f: string)
    requires Scanned(disk, directory, left) && f in left && f in directory
    ensures Scanned(disk[BaseName(f) := f], directory, left - {f})
  {
  }

  lemma NothingScanned(directory: map<string, nat>)
    ensures Scanned(map[], directory, directory.Keys)
  {
  }

  lemma ScanAll(disk: map<string, string>, directory: map<string, nat>)
    requires Scanned(disk, directory, {})
    ensures disk.Keys == (set f | f in directory :: BaseName(f)) && Indexed(disk, directory)
  {
  }

  class AlbumArtCache {
    var fetching: map<string, Job>
    var diskCache: map<string, string>
    var diskCacheSize: int
    var files: map<string, nat>       // the cache directory
    var nextTransfer: nat
    var created: nat
    var endings: seq<Ending>
    var requested: seq<string>

    ghost function View(): Cache
      reads this
    {
      Cache(fetching, diskCache, diskCacheSize, files, nextTransfer, created, endings, requested)
    }

    /** Scans the files of an existing directory, in any order. */
    constructor (directory: map<string, nat>)
      ensures Opened(View()) && files == directory
      ensures Books(View())
    {
      files := directory;
      fetching, diskCache, diskCacheSize := map[], map[], 0;
      nextTransfer, created, endings, requested := 0, 0, [], [];
      new;
      hide Scanned, Indexed, BaseName;
      var left := directory.Keys;
      assert directory - left == map[];
      NothingScanned(directory);
      while left != {}
        invariant left <= directory.Keys && files == directory && fetching == map[]
        invariant created == 0 && endings == [] && requested == []
        invariant Scanned(diskCache, directory, left)
        invariant diskCacheSize == Total(directory - left)
        decreases left
      {
        var f :| f in left;
        TotalWithout(directory - (left - {f}), f);
        assert directory - (left - {f}) - {f} == directory - left;
        ScanOne(diskCache, directory, left, f);
        diskCache := diskCache[BaseName(f) := f];
        diskCacheSize := diskCacheSize + directory[f];
        left := left - {f};
      }
      assert directory - {} == directory;
      ScanAll(diskCache, directory);
      OpenedBooks(View());
    }

    /** DownloadAlbumArtJob::finished, received by the cache. */
    method FetchFinished(hash: string, ok: bool)
      requires hash in fetching
      modifies this
      ensures View() == Finished(old(View()), hash, ok)
    {
      var job := fetching[hash];
      fetching := fetching - {hash};
      endings := endings + [Ending(hash, ok, job.transfers)];
      if ok {
        diskCache := diskCache[hash := job.FileName()];
        diskCacheSize := diskCacheSize + job.written;
      }
    }

    method JobGotData(hash: string, payload: bool, opens: bool)
      requires hash in fetching
      modifies this
      ensures View() == GotData(old(View()), hash, payload, opens)
    {
      var job := fetching[hash];
      if job.transfer.Some? {
        return;
      }
      if !payload {
        FetchFinished(hash, false);
        return;
      }
      if !opens {
        FetchFinished(hash, false);
        return;
      }
      files := files[job.FileName() := 0];
      fetching := fetching[hash := job.(transfer := Some(nextTransfer), written := 0, transfers := job.transfers + 1)];
      nextTransfer := nextTransfer + 1;
    }

    method JobFailed(hash: string, clears: bool)
      requires hash in fetching
      modifies this
      ensures View() == Failed(old(View()), hash, clears)
    {
      if clears {
        files := files[fetching[hash].FileName() := 0];
      }
      FetchFinished(hash, false);
    }

    /** The copy job of a download writes to the cache file. */
    method TransferWrites(hash: string, n: nat)
      requires Enabled(View(), Writes(hash, n))
      modifies this
      ensures View() == Step(old(View()), Writes(hash, n))
    {
      var job := fetching[hash];
      files := files[job.FileName() := (if job.FileName() in files then files[job.FileName()] else 0) + n];
      fetching := fetching[hash := job.(written := job.written + n)];
    }

    method JobFetchFinished(hash: string, transfer: nat, outcome: Outcome, opens: bool, clears: bool)
      requires hash in fetching
      modifies this
      ensures View() == Step(old(View()), Result(hash, transfer, outcome, opens, clears))
    {
      var job := fetching[hash];
      if job.transfer != Some(transfer) {
        return;
      }
      if outcome.TransferError? {
        JobFailed(hash, clears);
        return;
      }
      if outcome.Redirect? {
        job := job.(redirects := job.redirects + 1);
        if job.redirects > 10 {
          JobFailed(hash, clears);
          return;
        }
        job := job.(transfer := None);
        fetching := fetching[hash := job];
        JobGotData(hash, true, opens);
        return;
      }
      if outcome.BadStatus? {
        JobFailed(hash, clears);
        return;
      }
      FetchFinished(hash, true);
    }

    method StartFetching(url: Url, opens: bool)
      requires WellFormed(url)
      modifies this
      ensures View() == Step(old(View()), Event.StartFetching(url, opens))
    {
      if url.text == "" {
        return;
      }
      if url.hash in diskCache || url.hash in fetching {
        return;
      }
      fetching := fetching[url.hash := Job(url, None, 0, 0, 0)];
      created := created + 1;
      if !url.local {
        JobGotData(url.hash, true, opens);
      } else {
        requested := requested + [url.text];
      }
    }

    method EndFetching(url: Url, payload: bool, opens: bool)
      requires WellFormed(url)
      modifies this
      ensures View() == Step(old(View()), Event.EndFetching(url, payload, opens))
    {
      if url.hash !in fetching {
        return;
      }
      JobGotData(url.hash, payload, opens);
    }
  }
}
