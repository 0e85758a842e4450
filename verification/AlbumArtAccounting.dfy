/**
 What the album art cache keeps over any sequence of requests, payloads and transfer results.
 */
module AlbumArtAccounting {
  import opened Basics
  import opened FileHelper
  import opened AlbumArtNames
  import opened AlbumArtSpec

  // ---- sizes of sets of files ----------------------------------------------------------------

  ghost function Total(m: map<string, nat>): nat {
    if m == map[] then 0
    else
      var k :| k in m;
      m[k] + Total(m - {k})
  }

  lemma {:induction false} TotalWithout(m: map<string, nat>, k: string)
    requires k in m
    ensures Total(m) == m[k] + Total(m - {k})
    decreases |m|
  {
    var j :| j in m && Total(m) == m[j] + Total(m - {j});
    if j != k {
      TotalWithout(m - {j}, k);
      TotalWithout(m - {k}, j);
      assert m - {j} - {k} == m - {k} - {j};
    }
  }

  // ---- invariants --------------------------------------------------------------------------------

  ghost predicate Downloading(c: Cache, hash: string) {
    hash in c.fetching && c.fetching[hash].transfer.Some?
  }

  /** The files that transfers are writing to. */
  ghost function Busy(c: Cache): set<string> {
    set h | h in c.fetching && c.fetching[h].transfer.Some? :: c.fetching[h].FileName()
  }

  ghost predicate JobOk(c: Cache, h: string)
    requires h in c.fetching
  {
    var job := c.fetching[h];
    && WellFormed(job.url) && job.url.hash == h
    && job.redirects <= MAX_REDIRECTS
    && job.transfers == (if job.transfer.Some? then job.redirects + 1 else 0)
    && (job.transfer.None? ==> job.redirects == 0)
    && (job.transfer.Some? ==>
          && job.transfer.value < c.nextTransfer
          && job.FileName() in c.files && c.files[job.FileName()] == job.written)
  }

  /** No image is both cached and being fetched; jobs are in order; ended jobs made at most
      eleven transfers; every job created is either in the table or has ended. */
  ghost predicate Inv(c: Cache) {
    && c.fetching.Keys !! c.disk.Keys
    && (forall h :: h in c.fetching ==> JobOk(c, h))
    && (forall i :: 0 <= i < |c.endings| ==> c.endings[i].transfers <= MAX_REDIRECTS + 1)
    && |c.endings| + |c.fetching| == c.created
  }

  /** A file that belongs to no cached image and to no running transfer is empty. */
  ghost predicate Clean(c: Cache) {
    forall f :: f in c.files && f !in Busy(c) && BaseName(f) !in c.disk ==> c.files[f] == 0
  }

  /** The counter is the number of bytes in the directory, running transfers aside. */
  ghost predicate Accounted(c: Cache) {
    c.diskSize == Total(c.files - Busy(c))
  }

  lemma FileNamesDiffer(c: Cache, h: string, g: string)
    requires h in c.fetching && g in c.fetching && JobOk(c, h) && JobOk(c, g)
    requires c.fetching[h].FileName() == c.fetching[g].FileName()
    ensures h == g
  {
    CacheNameBase(c.fetching[h].url);
    CacheNameBase(c.fetching[g].url);
  }

  lemma BusyFiles(c: Cache, h: string)
    requires Inv(c) && h in c.fetching
    ensures BaseName(c.fetching[h].FileName()) == h
    ensures c.fetching[h].FileName() in Busy(c) <==> c.fetching[h].transfer.Some?
  {
    CacheNameBase(c.fetching[h].url);
    if c.fetching[h].FileName() in Busy(c) {
      var g :| g in c.fetching && c.fetching[g].transfer.Some? && c.fetching[g].FileName() == c.fetching[h].FileName();
      FileNamesDiffer(c, h, g);
    }
  }

  // ---- the end of a download ---------------------------------------------------------------------

  lemma FinishedKeepsInv(c: Cache, h: string, ok: bool)
    requires Inv(c) && h in c.fetching
    ensures Inv(Finished(c, h, ok))
  {
    var d := Finished(c, h, ok);
    assert d.fetching.Keys == c.fetching.Keys - {h};
    assert |d.fetching.Keys| == |c.fetching.Keys| - 1;
    forall g | g in d.fetching ensures JobOk(d, g) {
      assert JobOk(c, g);
    }
  }

  lemma FinishedBusy(c: Cache, h: string, ok: bool)
    requires Inv(c) && h in c.fetching
    ensures Busy(Finished(c, h, ok)) == Busy(c) - {c.fetching[h].FileName()}
  {
    var d := Finished(c, h, ok);
    forall f | f in Busy(c) - {c.fetching[h].FileName()} ensures f in Busy(d) {
      var g :| g in c.fetching && c.fetching[g].transfer.Some? && c.fetching[g].FileName() == f;
      assert g in d.fetching && d.fetching[g] == c.fetching[g];
    }
    forall f | f in Busy(d) ensures f in Busy(c) - {c.fetching[h].FileName()} {
      var g :| g in d.fetching && d.fetching[g].transfer.Some? && d.fetching[g].FileName() == f;
      assert g in c.fetching && JobOk(c, g) && JobOk(c, h);
      if f == c.fetching[h].FileName() { FileNamesDiffer(c, h, g); }
    }
  }

  /** Bytes of the file of h that the counter does not know of. */
  ghost function Loose(c: Cache, h: string): nat
    requires h in c.fetching
  {
    if Downloading(c, h) && c.fetching[h].FileName() in c.files then c.files[c.fetching[h].FileName()] else 0
  }

  /** The bytes of a file that stops being busy. */
  lemma Released(files: map<string, nat>, busy: set<string>, f: string)
    requires f in busy && f in files
    ensures Total(files - (busy - {f})) == files[f] + Total(files - busy)
  {
    var free := files - (busy - {f});
    TotalWithout(free, f);
    assert free - {f} == files - busy;
  }

  /** Ending a download in success keeps the books; ending it in failure keeps them exactly if
      its file is empty. */
  lemma FinishedAccounts(c: Cache, h: string, ok: bool)
    requires Inv(c) && Clean(c) && Accounted(c) && h in c.fetching && (ok ==> Downloading(c, h))
    ensures Accounted(Finished(c, h, ok)) <==> ok || Loose(c, h) == 0
    ensures ok || Loose(c, h) == 0 ==> Clean(Finished(c, h, ok))
  {
    var d := Finished(c, h, ok);
    var f := c.fetching[h].FileName();
    FinishedBusy(c, h, ok);
    BusyFiles(c, h);
    assert JobOk(c, h);
    if Downloading(c, h) {
      Released(c.files, Busy(c), f);
    } else {
      assert Busy(d) == Busy(c);
    }
  }

  /** Books in order: the invariant, no stray bytes, the right count. */
  ghost predicate Books(c: Cache) {
    Inv(c) && Clean(c) && Accounted(c)
  }

  /** A change of one job that leaves the set of busy files alone. */
  lemma SameBusy(c: Cache, d: Cache, h: string, job: Job)
    requires Inv(c) && h in c.fetching && job.url == c.fetching[h].url
    requires job.transfer.Some? == c.fetching[h].transfer.Some?
    requires d.fetching == c.fetching[h := job]
    ensures Busy(d) == Busy(c)
  {
    assert JobOk(c, h);
    forall f | f in Busy(c) ensures f in Busy(d) {
      var g :| g in c.fetching && c.fetching[g].transfer.Some? && c.fetching[g].FileName() == f;
      assert g in d.fetching && d.fetching[g].transfer.Some? && d.fetching[g].FileName() == f;
    }
    forall f | f in Busy(d) ensures f in Busy(c) {
      var g :| g in d.fetching && d.fetching[g].transfer.Some? && d.fetching[g].FileName() == f;
      assert g in c.fetching && c.fetching[g].transfer.Some? && c.fetching[g].FileName() == f;
    }
  }

  /** Writing to, or emptying, the file of a running transfer: only that file and job change. */
  ghost predicate Rewrites(c: Cache, d: Cache, h: string, n: nat) {
    && Downloading(c, h) && h in d.fetching
    && var job := c.fetching[h];
       var next := d.fetching[h];
    && d.fetching == c.fetching[h := next]
    && next.url == job.url && next.transfer.Some? && next.written == n
    && next.transfer.value < d.nextTransfer && next.transfers == next.redirects + 1
    && next.redirects <= MAX_REDIRECTS
    && d.files == c.files[job.FileName() := n]
    && d.disk == c.disk && d.diskSize == c.diskSize && d.created == c.created && d.endings == c.endings
    && d.nextTransfer >= c.nextTransfer
  }

  lemma RewritesKeepInv(c: Cache, d: Cache, h: string, n: nat)
    requires Inv(c) && Rewrites(c, d, h, n)
    ensures Inv(d)
  {
    assert d.fetching.Keys == c.fetching.Keys;
    assert JobOk(c, h);
    forall g | g in d.fetching ensures JobOk(d, g) {
      assert JobOk(c, g);
      if g != h && c.fetching[g].FileName() == c.fetching[h].FileName() { FileNamesDiffer(c, h, g); }
    }
  }

  lemma RewritesKeepBooks(c: Cache, d: Cache, h: string, n: nat)
    requires Books(c) && Rewrites(c, d, h, n)
    ensures Books(d)
  {
    RewritesKeepInv(c, d, h, n);
    SameBusy(c, d, h, d.fetching[h]);
    BusyFiles(c, h);
    assert d.files - Busy(d) == c.files - Busy(c);
    hide Total, JobOk;
  }

  // ---- the start of a download -------------------------------------------------------------------

  lemma StartTransferKeepsInv(c: Cache, h: string)
    requires Inv(c) && h in c.fetching && c.fetching[h].transfer.None?
    ensures Inv(GotData(c, h, true, true))
  {
    var d := GotData(c, h, true, true);
    assert d.fetching.Keys == c.fetching.Keys;
    assert JobOk(c, h);
    forall g | g in d.fetching ensures JobOk(d, g) {
      assert JobOk(c, g);
      if g != h && c.fetching[g].FileName() == c.fetching[h].FileName() { FileNamesDiffer(c, h, g); }
    }
  }

  lemma StartTransferBusy(c: Cache, h: string)
    requires Inv(c) && h in c.fetching && c.fetching[h].transfer.None?
    ensures Busy(GotData(c, h, true, true)) == Busy(c) + {c.fetching[h].FileName()}
  {
    var d := GotData(c, h, true, true);
    assert d.fetching[h].FileName() == c.fetching[h].FileName();
    forall f | f in Busy(c) ensures f in Busy(d) {
      var g :| g in c.fetching && c.fetching[g].transfer.Some? && c.fetching[g].FileName() == f;
      assert g in d.fetching && d.fetching[g] == c.fetching[g];
    }
    forall f | f in Busy(d) ensures f in Busy(c) + {c.fetching[h].FileName()} {
      var g :| g in d.fetching && d.fetching[g].transfer.Some? && d.fetching[g].FileName() == f;
      if g != h { assert c.fetching[g] == d.fetching[g]; }
    }
    assert h in d.fetching && d.fetching[h].transfer.Some?;
  }

  /** An empty or missing file that becomes busy changes no sum. */
  lemma Claimed(files: map<string, nat>, busy: set<string>, f: string)
    requires f !in busy && (f in files ==> files[f] == 0)
    ensures Total(files - (busy + {f})) == Total(files - busy)
  {
    if f in files {
      Released(files, busy + {f}, f);
      assert busy + {f} - {f} == busy;
    } else {
      assert files - (busy + {f}) == files - busy;
    }
  }

  lemma StartTransferKeepsBooks(c: Cache, h: string)
    requires Books(c) && h in c.fetching && c.fetching[h].transfer.None?
    ensures Books(GotData(c, h, true, true))
  {
    var d := GotData(c, h, true, true);
    var f := c.fetching[h].FileName();
    StartTransferKeepsInv(c, h);
    StartTransferBusy(c, h);
    BusyFiles(c, h);
    assert h !in c.disk;
    hide JobOk, Total, Busy, BaseName;
    Claimed(c.files, Busy(c), f);
    assert d.files - Busy(d) == c.files - Busy(d);
  }

  lemma GotDataKeepsInv(c: Cache, h: string, payload: bool, opens: bool)
    requires Inv(c) && h in c.fetching
    ensures Inv(GotData(c, h, payload, opens))
  {
    if c.fetching[h].transfer.None? {
      if payload && opens { StartTransferKeepsInv(c, h); } else { FinishedKeepsInv(c, h, false); }
    }
    hide Inv, Finished;
  }

  lemma GotDataKeepsBooks(c: Cache, h: string, payload: bool, opens: bool)
    requires Books(c) && h in c.fetching
    ensures Books(GotData(c, h, payload, opens))
  {
    if c.fetching[h].transfer.None? {
      if payload && opens {
        StartTransferKeepsBooks(c, h);
      } else {
        FinishedAccounts(c, h, false);
        FinishedKeepsInv(c, h, false);
      }
    }
    hide Inv, Clean, Accounted, Finished;
  }

  /** The table with a new download in it. */
  function WithJob(c: Cache, url: Url): Cache {
    c.(fetching := c.fetching[url.hash := Job(url, None, 0, 0, 0)], created := c.created + 1)
  }

  lemma NewJobKeepsInv(c: Cache, url: Url)
    requires Inv(c) && WellFormed(url) && url.hash !in c.disk && url.hash !in c.fetching
    ensures Inv(WithJob(c, url))
  {
    var d := WithJob(c, url);
    assert d.fetching.Keys == c.fetching.Keys + {url.hash};
    assert |d.fetching.Keys| == |c.fetching.Keys| + 1;
    forall g | g in d.fetching ensures JobOk(d, g) {
      if g != url.hash { assert JobOk(c, g); }
    }
  }

  lemma NewJobBusy(c: Cache, url: Url)
    requires url.hash !in c.fetching
    ensures Busy(WithJob(c, url)) == Busy(c)
  {
    var d := WithJob(c, url);
    forall f | f in Busy(c) ensures f in Busy(d) {
      var g :| g in c.fetching && c.fetching[g].transfer.Some? && c.fetching[g].FileName() == f;
      assert g in d.fetching && d.fetching[g] == c.fetching[g];
    }
    forall f | f in Busy(d) ensures f in Busy(c) {
      var g :| g in d.fetching && d.fetching[g].transfer.Some? && d.fetching[g].FileName() == f;
      assert g in c.fetching && c.fetching[g] == d.fetching[g];
    }
  }

  lemma NewJobKeepsBooks(c: Cache, url: Url)
    requires Inv(c) && WellFormed(url) && url.hash !in c.disk && url.hash !in c.fetching
    ensures Inv(WithJob(c, url)) && (Books(c) ==> Books(WithJob(c, url)))
  {
    NewJobKeepsInv(c, url);
    NewJobBusy(c, url);
    hide Inv, Busy, Total;
  }

  lemma AskingKeepsBooks(c: Cache, requested: seq<string>)
    ensures Inv(c) ==> Inv(c.(requested := requested))
    ensures Books(c) ==> Books(c.(requested := requested))
  {
    var d := c.(requested := requested);
    assert Inv(c) ==> forall h :: h in d.fetching ==> JobOk(c, h) && JobOk(d, h);
    assert Busy(d) == Busy(c);
    hide Total;
  }

  // ---- transfer results ----------------------------------------------------------------------------

  /** A download that is marked as failed: its file is emptied first. */
  function Emptied(c: Cache, h: string): Cache
    requires h in c.fetching
  {
    c.(files := c.files[c.fetching[h].FileName() := 0], fetching := c.fetching[h := c.fetching[h].(written := 0)])
  }

  lemma FailedIsFinished(c: Cache, h: string, clears: bool)
    requires h in c.fetching
    ensures Failed(c, h, clears) == Finished(if clears then Emptied(c, h) else c, h, false)
  {
    assert Emptied(c, h).fetching - {h} == c.fetching - {h};
  }

  /** Following a redirect into a file that cannot be opened ends the download. */
  lemma RefusedIsFinished(c: Cache, h: string, clears: bool)
    requires h in c.fetching && c.fetching[h].redirects < MAX_REDIRECTS
    ensures Redirected(c, h, false, clears) == Finished(c, h, false)
  {
    var job := c.fetching[h];
    assert c.fetching[h := job.(redirects := job.redirects + 1, transfer := None)] - {h} == c.fetching - {h};
  }

  /** The transfer has written something, and its file can no longer be emptied. */
  predicate LeavesBytes(c: Cache, e: Event) {
    && e.Result? && e.hash in c.fetching && c.fetching[e.hash].transfer == Some(e.transfer)
    && c.fetching[e.hash].written > 0
    && (if e.outcome.Redirect? && c.fetching[e.hash].redirects < MAX_REDIRECTS then !e.opens
        else !e.outcome.Fine? && !e.clears)
  }

  lemma EmptiedRewrites(c: Cache, h: string)
    requires Inv(c) && Downloading(c, h)
    ensures Rewrites(c, Emptied(c, h), h, 0)
  {
    assert JobOk(c, h);
  }

  lemma LooseIsWritten(c: Cache, h: string)
    requires Inv(c) && Downloading(c, h)
    ensures Loose(c, h) == c.fetching[h].written
  {
    assert JobOk(c, h);
  }

  lemma FailedAccounts(c: Cache, h: string, clears: bool)
    requires Books(c) && Downloading(c, h)
    ensures Inv(Failed(c, h, clears))
    ensures Accounted(Failed(c, h, clears)) <==> clears || c.fetching[h].written == 0
    ensures clears || c.fetching[h].written == 0 ==> Clean(Failed(c, h, clears))
  {
    FailedIsFinished(c, h, clears);
    var d := if clears then Emptied(c, h) else c;
    if clears {
      EmptiedRewrites(c, h);
      RewritesKeepBooks(c, d, h, 0);
    }
    LooseIsWritten(d, h);
    FinishedKeepsInv(d, h, false);
    FinishedAccounts(d, h, false);
    hide Inv, Clean, Accounted, Failed, Finished, Loose;
  }

  /** A redirect that is followed starts over with an empty file. */
  lemma FollowedRewrites(c: Cache, h: string, clears: bool)
    requires Inv(c) && Downloading(c, h) && c.fetching[h].redirects < MAX_REDIRECTS
    ensures Rewrites(c, Redirected(c, h, true, clears), h, 0)
  {
    assert JobOk(c, h);
    var job := c.fetching[h];
    var d := Redirected(c, h, true, clears);
    var next := d.fetching[h];
    assert d.fetching == c.fetching[h := next];
  }

  /** The tenth redirect is still followed, by a new transfer; the eleventh ends the download. */
  lemma RedirectLimit(c: Cache, h: string, clears: bool)
    requires Inv(c) && Downloading(c, h)
    ensures var d := Redirected(c, h, true, clears);
      && (h in d.fetching <==> c.fetching[h].redirects < 10)
      && (h in d.fetching ==>
            && d.fetching[h].redirects == c.fetching[h].redirects + 1
            && d.fetching[h].transfers == c.fetching[h].transfers + 1
            && Downloading(d, h) && d.fetching[h].transfer != c.fetching[h].transfer)
      && (h !in d.fetching ==> d.endings == c.endings + [Ending(h, false, 11)])
  {
    assert JobOk(c, h);
  }

  lemma RedirectedAccounts(c: Cache, h: string, opens: bool, clears: bool)
    requires Books(c) && Downloading(c, h)
    ensures var d := Redirected(c, h, opens, clears);
      var ok := c.fetching[h].written == 0 || if c.fetching[h].redirects < MAX_REDIRECTS then opens else clears;
      Inv(d) && (Accounted(d) <==> ok) && (ok ==> Clean(d))
  {
    hide Inv, Clean, Accounted, Finished, Loose, Failed, GotData, Rewrites;
    if c.fetching[h].redirects >= MAX_REDIRECTS {
      FailedAccounts(c, h, clears);
    } else if opens {
      FollowedRewrites(c, h, clears);
      RewritesKeepBooks(c, Redirected(c, h, true, clears), h, 0);
    } else {
      RefusedIsFinished(c, h, clears);
      LooseIsWritten(c, h);
      FinishedKeepsInv(c, h, false);
      FinishedAccounts(c, h, false);
    }
  }

  lemma ResultAccounts(c: Cache, e: Event)
    requires Books(c) && e.Result? && Enabled(c, e) && c.fetching[e.hash].transfer == Some(e.transfer)
    ensures Inv(Step(c, e)) && (Accounted(Step(c, e)) <==> !LeavesBytes(c, e))
    ensures !LeavesBytes(c, e) ==> Clean(Step(c, e))
  {
    hide Inv, Clean, Accounted, Failed, Redirected, Finished;
    match e.outcome
    case TransferError => FailedAccounts(c, e.hash, e.clears);
    case BadStatus => FailedAccounts(c, e.hash, e.clears);
    case Redirect => RedirectedAccounts(c, e.hash, e.opens, e.clears);
    case Fine =>
      FinishedKeepsInv(c, e.hash, true);
      FinishedAccounts(c, e.hash, true);
  }

  lemma WritesRewrites(c: Cache, h: string, n: nat)
    requires Inv(c) && Downloading(c, h)
    ensures Rewrites(c, Step(c, Writes(h, n)), h, c.fetching[h].written + n)
  {
    assert JobOk(c, h);
  }

  /** From books in order, one event keeps the count of the bytes on disk right exactly if it
      does not leave bytes in a file that failed and could not be emptied. */
  lemma StepAccounts(c: Cache, e: Event)
    requires Books(c) && Enabled(c, e)
    ensures Inv(Step(c, e)) && (Accounted(Step(c, e)) <==> !LeavesBytes(c, e))
    ensures !LeavesBytes(c, e) ==> Books(Step(c, e))
  {
    hide Inv, Clean, Accounted, GotData, Redirected, Failed, Finished;
    match e
    case StartFetching(url, opens) =>
      if url.text != "" && url.hash !in c.disk && url.hash !in c.fetching {
        NewJobKeepsBooks(c, url);
        if !url.local {
          GotDataKeepsBooks(WithJob(c, url), url.hash, true, opens);
        } else {
          AskingKeepsBooks(WithJob(c, url), c.requested + [url.text]);
        }
      }
    case EndFetching(url, payload, opens) =>
      if url.hash in c.fetching { GotDataKeepsBooks(c, url.hash, payload, opens); }
    case Writes(hash, n) =>
      WritesRewrites(c, hash, n);
      RewritesKeepBooks(c, Step(c, e), hash, c.fetching[hash].written + n);
    case Result(hash, transfer, _, _, _) =>
      if c.fetching[hash].transfer == Some(transfer) { ResultAccounts(c, e); }
  }

  lemma FailedKeepsInv(c: Cache, h: string, clears: bool)
    requires Inv(c) && Downloading(c, h)
    ensures Inv(Failed(c, h, clears))
  {
    FailedIsFinished(c, h, clears);
    var d := if clears then Emptied(c, h) else c;
    if clears {
      EmptiedRewrites(c, h);
      RewritesKeepInv(c, d, h, 0);
    }
    FinishedKeepsInv(d, h, false);
    hide Inv, Failed, Finished;
  }

  lemma RedirectedKeepsInv(c: Cache, h: string, opens: bool, clears: bool)
    requires Inv(c) && Downloading(c, h)
    ensures Inv(Redirected(c, h, opens, clears))
  {
    hide Inv, Finished, Failed, GotData, Rewrites;
    if c.fetching[h].redirects >= MAX_REDIRECTS {
      FailedKeepsInv(c, h, clears);
    } else if opens {
      FollowedRewrites(c, h, clears);
      RewritesKeepInv(c, Redirected(c, h, true, clears), h, 0);
    } else {
      RefusedIsFinished(c, h, clears);
      FinishedKeepsInv(c, h, false);
    }
  }

  lemma ResultKeepsInv(c: Cache, e: Event)
    requires Inv(c) && e.Result? && Enabled(c, e) && c.fetching[e.hash].transfer == Some(e.transfer)
    ensures Inv(Step(c, e))
  {
    hide Inv, Failed, Redirected, Finished;
    match e.outcome
    case TransferError => FailedKeepsInv(c, e.hash, e.clears);
    case BadStatus => FailedKeepsInv(c, e.hash, e.clears);
    case Redirect => RedirectedKeepsInv(c, e.hash, e.opens, e.clears);
    case Fine => FinishedKeepsInv(c, e.hash, true);
  }

  /** Disjointness, job order, bounded chains and job counts survive every event. */
  lemma StepKeepsInv(c: Cache, e: Event)
    requires Inv(c) && Enabled(c, e)
    ensures Inv(Step(c, e))
  {
    hide Inv, GotData, Failed, Finished, Redirected, Rewrites;
    match e
    case StartFetching(url, opens) =>
      if url.text != "" && url.hash !in c.disk && url.hash !in c.fetching {
        NewJobKeepsBooks(c, url);
        if !url.local {
          GotDataKeepsInv(WithJob(c, url), url.hash, true, opens);
        } else {
          AskingKeepsBooks(WithJob(c, url), c.requested + [url.text]);
        }
      }
    case EndFetching(url, payload, opens) =>
      if url.hash in c.fetching { GotDataKeepsInv(c, url.hash, payload, opens); }
    case Writes(h, n) =>
      WritesRewrites(c, h, n);
      RewritesKeepInv(c, Step(c, e), h, c.fetching[h].written + n);
    case Result(h, transfer, _, _, _) =>
      if c.fetching[h].transfer == Some(transfer) { ResultKeepsInv(c, e); }
  }

  // ---- whole runs ------------------------------------------------------------------------------------

  /** Every cached image is in a file of the directory that is found by its hash. */
  ghost predicate Indexed(disk: map<string, string>, files: map<string, nat>) {
    forall h :: h in disk ==> disk[h] in files && BaseName(disk[h]) == h
  }

  /** The cache as the constructor leaves it: every file in the directory counts as cached. */
  ghost predicate Opened(c: Cache) {
    && c.fetching == map[] && c.created == 0 && c.endings == [] && c.requested == []
    && c.disk.Keys == (set f | f in c.files :: BaseName(f))
    && Indexed(c.disk, c.files)
    && c.diskSize == Total(c.files)
  }

  ghost predicate IsRun(states: seq<Cache>, events: seq<Event>) {
    && |states| == |events| + 1 && Opened(states[0])
    && forall i {:trigger events[i]} :: 0 <= i < |events| ==>
         Enabled(states[i], events[i]) && states[i + 1] == Step(states[i], events[i])
  }

  lemma OpenedBooks(c: Cache)
    requires Opened(c)
    ensures Books(c)
  {
    assert Busy(c) == {};
    assert c.files - Busy(c) == c.files;
  }

  /** In every run no image is both cached and being fetched, no download makes more than
      eleven transfers, and every download started is still in the table or ended once. */
  lemma {:induction false} RunKeepsInv(states: seq<Cache>, events: seq<Event>, i: nat)
    requires IsRun(states, events) && i < |states|
    ensures Inv(states[i])
    ensures forall h :: h in states[i].fetching ==> states[i].fetching[h].transfers <= MAX_REDIRECTS + 1
  {
    if i == 0 {
      OpenedBooks(states[0]);
    } else {
      RunKeepsInv(states, events, i - 1);
      hide Step, Enabled, Opened;
      StepKeepsInv(states[i - 1], events[i - 1]);
    }
    assert forall h :: h in states[i].fetching ==> JobOk(states[i], h);
  }

  /** As long as no event leaves bytes behind, the count is right in every state; and whenever
      nothing is being fetched it is the size of the whole directory. */
  lemma {:induction false} RunAccounts(states: seq<Cache>, events: seq<Event>, i: nat)
    requires IsRun(states, events) && i < |states|
    requires forall k :: 0 <= k < i ==> !LeavesBytes(states[k], events[k])
    ensures Books(states[i])
    ensures states[i].fetching == map[] ==> states[i].diskSize == Total(states[i].files)
  {
    if i == 0 {
      OpenedBooks(states[0]);
    } else {
      RunAccounts(states, events, i - 1);
      hide Step, Enabled, Opened, Inv, Clean, Total;
      StepAccounts(states[i - 1], events[i - 1]);
    }
    if states[i].fetching == map[] {
      assert Busy(states[i]) == {};
      assert states[i].files - {} == states[i].files;
    }
  }

  /** Results of transfers that were replaced, and payloads for a download that is under way,
      change nothing. */
  lemma StaleEventsIgnored(c: Cache, e: Event)
    requires Enabled(c, e)
    requires (e.Result? && c.fetching[e.hash].transfer != Some(e.transfer))
          || (e.EndFetching? && (e.url.hash !in c.fetching || Downloading(c, e.url.hash)))
          || (e.StartFetching? && (e.url.hash in c.fetching || e.url.hash in c.disk))
    ensures Step(c, e) == c
  {
  }

  lemma SingleTotal(name: string, n: nat)
    ensures Total(map[name := n]) == n
  {
    TotalWithout(map[name := n], name);
    assert map[name := n] - {name} == map[];
  }

  /** An empty cache, and one in which a single transfer has written n bytes. */
  function Empty(): Cache {
    Cache(map[], map[], 0, map[], 0, 0, [], [])
  }

  function OneTransfer(url: Url, n: nat): Cache {
    Cache(map[url.hash := Job(url, Some(0), n, 0, 1)], map[], 0, map[CacheFileName(url) := n], 1, 1, [], [])
  }

  lemma FirstTransfer(url: Url, n: nat)
    requires WellFormed(url) && url.text != "" && !url.local
    ensures Step(Empty(), StartFetching(url, true)) == OneTransfer(url, 0)
    ensures Step(OneTransfer(url, 0), Writes(url.hash, n)) == OneTransfer(url, n)
  {
    assert map[CacheFileName(url) := 0][CacheFileName(url) := n] == map[CacheFileName(url) := n];
    var job := Job(url, Some(0), 0, 0, 1);
    assert map[url.hash := job][url.hash := job.(written := n)] == map[url.hash := job.(written := n)];
  }

  lemma RefusedRedirect(url: Url, n: nat)
    ensures Step(OneTransfer(url, n), Result(url.hash, 0, Outcome.Redirect, false, true))
      == Empty().(files := map[CacheFileName(url) := n], nextTransfer := 1, created := 1, endings := [Ending(url.hash, false, 1)])
  {
    var c := OneTransfer(url, n);
    RefusedIsFinished(c, url.hash, true);
    assert c.fetching - {url.hash} == map[];
  }

  /** Such an event is possible: a redirect whose reply had a body, into a file that cannot be
      opened again, leaves that body on disk uncounted, with nothing being fetched. */
  lemma RedirectMayLeaveBytes(url: Url, n: nat)
    requires WellFormed(url) && url.text != "" && !url.local && n > 0
    ensures exists states: seq<Cache>, events: seq<Event> ::
      && IsRun(states, events)
      && var last := states[|states| - 1];
         last.fetching == map[] && last.diskSize == 0 && Total(last.files) == n
  {
    FirstTransfer(url, n);
    RefusedRedirect(url, n);
    SingleTotal(CacheFileName(url), n);
    assert Opened(Empty());
    hide Step, Opened, Total;
    var e2 := Result(url.hash, 0, Outcome.Redirect, false, true);
    var c3 := Empty().(files := map[CacheFileName(url) := n], nextTransfer := 1, created := 1, endings := [Ending(url.hash, false, 1)]);
    var states := [Empty(), OneTransfer(url, 0), OneTransfer(url, n), c3];
    var events := [StartFetching(url, true), Writes(url.hash, n), e2];
    assert IsRun(states, events);
    assert states[|states| - 1] == c3;
  }
}
