/**
 How downloads of album art end: each exactly once, after a bounded number of results.
 */
module AlbumArtEndings {
  import opened Basics
  import opened FileHelper
  import opened AlbumArtNames
  import opened AlbumArtSpec
  import opened AlbumArtAccounting

  /** How many of the endings are of the image with this hash. */
  function EndingsOf(endings: seq<Ending>, h: string): nat {
    if endings == [] then 0
    else EndingsOf(endings[..|endings| - 1], h) + if endings[|endings| - 1].hash == h then 1 else 0
  }

  /** The ended downloads of an image and the one in the table. */
  function Balance(c: Cache, h: string): nat {
    EndingsOf(c.endings, h) + if h in c.fetching then 1 else 0
  }

  /** The request creates a download for this image. */
  predicate Starts(c: Cache, e: Event, h: string) {
    e.StartFetching? && e.url.hash == h && e.url.text != "" && h !in c.disk && h !in c.fetching
  }

  lemma FinishedBalance(c: Cache, g: string, ok: bool, h: string)
    requires g in c.fetching
    ensures Balance(Finished(c, g, ok), h) == Balance(c, h)
  {
    var d := Finished(c, g, ok);
    assert d.endings[..|d.endings| - 1] == c.endings;
  }

  lemma GotDataBalance(c: Cache, g: string, payload: bool, opens: bool, h: string)
    requires g in c.fetching
    ensures Balance(GotData(c, g, payload, opens), h) == Balance(c, h)
  {
    FinishedBalance(c, g, false, h);
    hide Finished;
  }

  lemma FailedBalance(c: Cache, g: string, clears: bool, h: string)
    requires g in c.fetching
    ensures Balance(Failed(c, g, clears), h) == Balance(c, h)
  {
    FinishedBalance(if clears then c.(files := c.files[c.fetching[g].FileName() := 0]) else c, g, false, h);
    hide Finished;
  }

  lemma RedirectedBalance(c: Cache, g: string, opens: bool, clears: bool, h: string)
    requires g in c.fetching
    ensures Balance(Redirected(c, g, opens, clears), h) == Balance(c, h)
  {
    hide GotData, Failed;
    var job := c.fetching[g];
    FailedBalance(c, g, clears, h);
    GotDataBalance(c.(fetching := c.fetching[g := job.(redirects := job.redirects + 1, transfer := None)]), g, true, opens, h);
  }

  /** An event adds to the balance of an image exactly if it creates a download for it. */
  lemma StepBalance(c: Cache, e: Event, h: string)
    requires Enabled(c, e)
    ensures Balance(Step(c, e), h) == Balance(c, h) + if Starts(c, e, h) then 1 else 0
  {
    hide GotData, Failed, Redirected, Finished;
    match e
    case StartFetching(url, opens) =>
      if url.text != "" && url.hash !in c.disk && url.hash !in c.fetching && !url.local {
        GotDataBalance(WithJob(c, url), url.hash, true, opens, h);
      }
    case EndFetching(url, payload, opens) =>
      if url.hash in c.fetching { GotDataBalance(c, url.hash, payload, opens, h); }
    case Writes(_, _) =>
    case Result(g, _, _, opens, clears) =>
      FailedBalance(c, g, clears, h);
      RedirectedBalance(c, g, opens, clears, h);
      FinishedBalance(c, g, true, h);
  }

  /** The downloads created for an image by the first i events. */
  ghost function Started(states: seq<Cache>, events: seq<Event>, h: string, i: nat): nat
    requires i <= |events| && i <= |states|
  {
    if i == 0 then 0
    else Started(states, events, h, i - 1) + if Starts(states[i - 1], events[i - 1], h) then 1 else 0
  }

  /** In every run, for every image: each download created for it has ended exactly once, except
      the one in the table, which has not. */
  lemma {:induction false} EachEndsOnce(states: seq<Cache>, events: seq<Event>, h: string, i: nat)
    requires IsRun(states, events) && i < |states|
    ensures EndingsOf(states[i].endings, h) + (if h in states[i].fetching then 1 else 0)
         == Started(states, events, h, i)
  {
    hide Step, Starts;
    if i > 0 {
      EachEndsOnce(states, events, h, i - 1);
      assert Enabled(states[i - 1], events[i - 1]);
      StepBalance(states[i - 1], events[i - 1], h);
    }
  }

  // ---- a download ends ---------------------------------------------------------------------------

  /** The event is the result of the transfer that the download of this image waits for. */
  predicate Matches(c: Cache, e: Event, h: string) {
    e.Result? && e.hash == h && h in c.fetching && c.fetching[h].transfer == Some(e.transfer)
  }

  /** How many results the download of this image gets from state i to state j. */
  ghost function Results(states: seq<Cache>, events: seq<Event>, h: string, i: nat, j: nat): nat
    requires i <= j <= |events| && j <= |states|
    decreases j - i
  {
    if i == j then 0
    else (if Matches(states[i], events[i], h) then 1 else 0) + Results(states, events, h, i + 1, j)
  }

  /** The image an event is about. */
  function About(e: Event): string {
    match e
    case StartFetching(url, _) => url.hash
    case EndFetching(url, _, _) => url.hash
    case Writes(hash, _) => hash
    case Result(hash, _, _, _, _) => hash
  }

  /** Events about other images leave a download alone. */
  lemma OtherEvent(c: Cache, e: Event, h: string)
    requires Enabled(c, e) && h in c.fetching && About(e) != h
    ensures h in Step(c, e).fetching && Step(c, e).fetching[h] == c.fetching[h]
  {
    if e.StartFetching? && e.url.hash !in c.fetching { assert h in WithJob(c, e.url).fetching; }
  }

  /** So do events about it that bring no result it waits for, apart from counting the writes. */
  lemma QuietEvent(c: Cache, e: Event, h: string)
    requires Enabled(c, e) && Downloading(c, h) && About(e) == h && !Matches(c, e, h)
    ensures var d := Step(c, e);
      && h in d.fetching
      && d.fetching[h] == if e.Writes? then c.fetching[h].(written := c.fetching[h].written + e.n) else c.fetching[h]
  {
    if !e.Writes? { StaleEventsIgnored(c, e); }
    hide GotData, Failed, Redirected, Finished;
  }

  lemma NoResult(c: Cache, e: Event, h: string)
    requires Enabled(c, e) && Downloading(c, h) && !Matches(c, e, h)
    ensures var d := Step(c, e);
      && Downloading(d, h) && d.fetching[h].transfer == c.fetching[h].transfer
      && d.fetching[h].redirects == c.fetching[h].redirects
      && d.fetching[h].written == c.fetching[h].written + if e.Writes? && e.hash == h then e.n else 0
  {
    hide Step, Enabled;
    if About(e) == h { QuietEvent(c, e, h); } else { OtherEvent(c, e, h); }
  }

  /** A result ends a download or starts its next transfer; nothing else touches its chain. */
  lemma StepChain(c: Cache, e: Event, h: string)
    requires Enabled(c, e) && Downloading(c, h)
    ensures var d := Step(c, e);
      || (Matches(c, e, h) && h !in d.fetching)
      || (Downloading(d, h) && d.fetching[h].redirects == c.fetching[h].redirects + if Matches(c, e, h) then 1 else 0)
  {
    if !Matches(c, e, h) {
      hide Step, Enabled;
      NoResult(c, e, h);
    }
  }

  /** A download with r redirects behind it ends at the latest with its 11 - r-th result: if a run
      holds that many from state i on, it leaves the table at some state k, which by then holds
      exactly one more ending for it. */
  lemma {:induction false} DownloadEnds(states: seq<Cache>, events: seq<Event>, h: string, i: nat, j: nat) returns (k: nat)
    requires IsRun(states, events) && i <= j < |states| && Downloading(states[i], h)
    requires Results(states, events, h, i, j) >= MAX_REDIRECTS + 1 - states[i].fetching[h].redirects
    ensures i < k <= j && Matches(states[k - 1], events[k - 1], h)
    ensures forall l :: i <= l < k ==> Downloading(states[l], h)
    ensures h !in states[k].fetching
    ensures Results(states, events, h, i, k) <= MAX_REDIRECTS + 1 - states[i].fetching[h].redirects
    ensures EndingsOf(states[k].endings, h) == EndingsOf(states[i].endings, h) + 1
    decreases j - i
  {
    hide Step, Opened, Balance;
    RunKeepsInv(states, events, i);
    assert JobOk(states[i], h);
    assert i < j && Enabled(states[i], events[i]);
    hide Inv, JobOk, Enabled;
    StepChain(states[i], events[i], h);
    StepBalance(states[i], events[i], h);
    BalanceOf(states[i], h);
    BalanceOf(states[i + 1], h);
    k := i + 1;
    if h in states[i + 1].fetching {
      k := DownloadEnds(states, events, h, i + 1, j);
    }
  }

  lemma BalanceOf(c: Cache, h: string)
    ensures Balance(c, h) == EndingsOf(c.endings, h) + if h in c.fetching then 1 else 0
  {
  }

  // ---- how a download starts ---------------------------------------------------------------------

  /** A transfer to an empty file has just begun. */
  ghost predicate JustBegun(c: Cache, d: Cache, h: string) {
    && h in d.fetching && d.fetching[h].transfer == Some(c.nextTransfer)
    && d.fetching[h].transfers == 1 && d.fetching[h].redirects == 0 && d.fetching[h].written == 0
    && d.fetching[h].FileName() in d.files && d.files[d.fetching[h].FileName()] == 0
    && (forall g :: g in c.fetching ==> c.fetching[g].transfer != d.fetching[h].transfer)
    && d.fetching == c.fetching[h := d.fetching[h]] && d.files == c.files[d.fetching[h].FileName() := 0]
    && d.disk == c.disk && d.diskSize == c.diskSize && d.endings == c.endings && d.requested == c.requested
  }

  /** The download has ended in failure, without a transfer. */
  ghost predicate EndedUnused(c: Cache, d: Cache, h: string) {
    && d.fetching == c.fetching - {h} && h !in d.disk && d.disk == c.disk && d.diskSize == c.diskSize
    && d.files == c.files && d.requested == c.requested
    && d.endings == c.endings + [Ending(h, false, 0)]
  }

  lemma DataDecides(c: Cache, h: string, payload: bool, opens: bool)
    requires Inv(c) && h in c.fetching && c.fetching[h].transfer.None?
    ensures var d := GotData(c, h, payload, opens);
      if payload && opens then JustBegun(c, d, h) && d.fetching[h].url == c.fetching[h].url else EndedUnused(c, d, h)
  {
    forall g | g in c.fetching ensures c.fetching[g].transfer != Some(c.nextTransfer) {
      assert JobOk(c, g);
    }
    assert JobOk(c, h);
    hide Inv, JobOk;
  }

  /** The first payload for a download that waits begins its transfer; a missing payload, or a file
      that does not open, ends it. */
  lemma PayloadDecides(states: seq<Cache>, events: seq<Event>, i: nat)
    requires IsRun(states, events) && i < |events| && events[i].EndFetching?
    requires var h := events[i].url.hash; h in states[i].fetching && states[i].fetching[h].transfer.None?
    ensures var h := events[i].url.hash;
      if events[i].payload && events[i].opens then JustBegun(states[i], states[i + 1], h)
      else EndedUnused(states[i], states[i + 1], h)
  {
    hide Inv, Opened, GotData, JustBegun, EndedUnused;
    RunKeepsInv(states, events, i);
    assert Enabled(states[i], events[i]);
    DataDecides(states[i], events[i].url.hash, events[i].payload, events[i].opens);
  }

  /** Exactly requests for an image that is neither cached nor being fetched create a download.  One
      for a local file asks the other device for it and waits; any other begins its transfer at once,
      or ends. */
  lemma RequestDecides(states: seq<Cache>, events: seq<Event>, i: nat)
    requires IsRun(states, events) && i < |events| && events[i].StartFetching?
    ensures var c, d, u := states[i], states[i + 1], events[i].url;
      if u.text == "" || u.hash in c.disk || u.hash in c.fetching then d == c
      else if u.local then
        && d == c.(fetching := d.fetching, created := c.created + 1, requested := c.requested + [u.text])
        && d.fetching == c.fetching[u.hash := Job(u, None, 0, 0, 0)]
      else if events[i].opens then JustBegun(c, d, u.hash) && d.fetching[u.hash].url == u
      else EndedUnused(c, d, u.hash)
  {
    hide Inv, Opened, GotData, JustBegun, EndedUnused;
    RunKeepsInv(states, events, i);
    var c, d, u, opens := states[i], states[i + 1], events[i].url, events[i].opens;
    assert Enabled(c, events[i]) && d == Step(c, events[i]);
    if u.text != "" && u.hash !in c.disk && u.hash !in c.fetching && !u.local {
      NewJobKeepsInv(c, u);
      DataDecides(WithJob(c, u), u.hash, true, opens);
      SinceRequest(c, u, d);
    }
  }

  lemma SinceRequest(c: Cache, u: Url, d: Cache)
    requires u.hash !in c.fetching
    ensures JustBegun(WithJob(c, u), d, u.hash) ==> JustBegun(c, d, u.hash)
    ensures EndedUnused(WithJob(c, u), d, u.hash) ==> EndedUnused(c, d, u.hash)
  {
    var w := WithJob(c, u);
    assert w.fetching - {u.hash} == c.fetching - {u.hash};
    assert forall g :: g in c.fetching ==> g in w.fetching && w.fetching[g] == c.fetching[g];
  }

  lemma NoPayload(c: Cache, e: Event, h: string)
    requires Enabled(c, e) && h in c.fetching && c.fetching[h].transfer.None?
    requires e.EndFetching? ==> e.url.hash != h
    ensures h in Step(c, e).fetching && Step(c, e).fetching[h] == c.fetching[h]
  {
    if About(e) != h {
      hide Step, Enabled;
      OtherEvent(c, e, h);
    }
  }

  /** A download without a transfer waits until a payload for it comes. */
  lemma {:induction false} WaitsForPayload(states: seq<Cache>, events: seq<Event>, h: string, i: nat, j: nat)
    requires IsRun(states, events) && i <= j < |states|
    requires h in states[i].fetching && states[i].fetching[h].transfer.None?
    requires forall k :: i <= k < j && events[k].EndFetching? ==> events[k].url.hash != h
    ensures h in states[j].fetching && states[j].fetching[h] == states[i].fetching[h]
    decreases j - i
  {
    hide Step, Enabled, Opened;
    if i < j {
      WaitsForPayload(states, events, h, i, j - 1);
      NoPayload(states[j - 1], events[j - 1], h);
    }
  }

  /** The local images for which the first i events created a download. */
  ghost function LocalStarts(states: seq<Cache>, events: seq<Event>, i: nat): seq<string>
    requires i <= |events| && i <= |states|
  {
    if i == 0 then []
    else
      var e := events[i - 1];
      LocalStarts(states, events, i - 1)
      + if e.StartFetching? && e.url.local && Starts(states[i - 1], e, e.url.hash) then [e.url.text] else []
  }

  lemma StepRequests(c: Cache, e: Event)
    requires Enabled(c, e)
    ensures Step(c, e).requested == c.requested
      + if e.StartFetching? && e.url.local && Starts(c, e, e.url.hash) then [e.url.text] else []
  {
  }

  /** In every run the other device is asked once for each download of a local image, and for nothing
      else. */
  lemma {:induction false} AskedOnce(states: seq<Cache>, events: seq<Event>, i: nat)
    requires IsRun(states, events) && i < |states|
    ensures states[i].requested == LocalStarts(states, events, i)
  {
    if i > 0 {
      hide Step, Starts, Inv;
      AskedOnce(states, events, i - 1);
      assert Enabled(states[i - 1], events[i - 1]);
      StepRequests(states[i - 1], events[i - 1]);
    }
  }

  // ---- what a result leads to ------------------------------------------------------------------

  /** The download of this image has left the table with one ending; success caches and counts its
      file, failure may have emptied it. */
  ghost predicate EndedAs(c: Cache, d: Cache, h: string, ok: bool, emptied: bool)
    requires h in c.fetching
  {
    var job := c.fetching[h];
    && d.fetching == c.fetching - {h}
    && d.endings == c.endings + [Ending(h, ok, job.transfers)]
    && d.disk == (if ok then c.disk[h := job.FileName()] else c.disk)
    && d.diskSize == c.diskSize + (if ok then job.written else 0)
    && d.files == (if emptied then c.files[job.FileName() := 0] else c.files)
    && d.requested == c.requested
  }

  /** The next transfer of the same download has begun, to the same file, emptied. */
  ghost predicate Continues(c: Cache, d: Cache, h: string)
    requires h in c.fetching
  {
    var job := c.fetching[h];
    && d.fetching == c.fetching[h := Job(job.url, Some(c.nextTransfer), 0, job.redirects + 1, job.transfers + 1)]
    && d.files == c.files[job.FileName() := 0] && d.nextTransfer == c.nextTransfer + 1
    && d.disk == c.disk && d.diskSize == c.diskSize && d.endings == c.endings && d.requested == c.requested
  }

  lemma FailedEnds(c: Cache, h: string, clears: bool)
    requires h in c.fetching
    ensures EndedAs(c, Failed(c, h, clears), h, false, clears)
  {
  }

  lemma FineEnds(c: Cache, h: string)
    requires h in c.fetching
    ensures EndedAs(c, Finished(c, h, true), h, true, false)
  {
  }

  lemma RedirectedDecides(c: Cache, h: string, opens: bool, clears: bool)
    requires h in c.fetching
    ensures var d := Redirected(c, h, opens, clears);
      if c.fetching[h].redirects >= 10 then EndedAs(c, d, h, false, clears)
      else if opens then Continues(c, d, h)
      else EndedAs(c, d, h, false, false)
  {
    FailedEnds(c, h, clears);
    var job := c.fetching[h];
    var waiting := job.(redirects := job.redirects + 1, transfer := None);
    assert c.fetching[h := waiting] - {h} == c.fetching - {h};
    hide Failed;
  }

  /** What the result of the current transfer leads to: success caches the file; an error, a bad
      status and the eleventh redirect end the download in failure; up to the tenth a redirect
      begins the next transfer, or ends the download if the file does not open. */
  lemma ResultDecides(states: seq<Cache>, events: seq<Event>, i: nat)
    requires IsRun(states, events) && i < |events|
    requires events[i].Result? && Matches(states[i], events[i], events[i].hash)
    ensures var c, d, e := states[i], states[i + 1], events[i];
      match e.outcome
      case Fine => EndedAs(c, d, e.hash, true, false)
      case TransferError => EndedAs(c, d, e.hash, false, e.clears)
      case BadStatus => EndedAs(c, d, e.hash, false, e.clears)
      case Redirect =>
        if c.fetching[e.hash].redirects >= 10 then EndedAs(c, d, e.hash, false, e.clears)
        else if e.opens then Continues(c, d, e.hash)
        else EndedAs(c, d, e.hash, false, false)
  {
    hide Opened, EndedAs, Continues, Failed, Finished, Redirected;
    var c, e := states[i], events[i];
    assert Enabled(c, e);
    FineEnds(c, e.hash);
    FailedEnds(c, e.hash, e.clears);
    RedirectedDecides(c, e.hash, e.opens, e.clears);
  }

  // ---- the index of the directory ----------------------------------------------------------------

  lemma FinishedIndexed(c: Cache, h: string, ok: bool)
    requires Inv(c) && Indexed(c.disk, c.files) && h in c.fetching && (ok ==> Downloading(c, h))
    ensures Indexed(Finished(c, h, ok).disk, c.files)
  {
    assert JobOk(c, h);
    CacheNameBase(c.fetching[h].url);
  }

  lemma StepIndexed(c: Cache, e: Event)
    requires Inv(c) && Indexed(c.disk, c.files) && Enabled(c, e)
    ensures Indexed(Step(c, e).disk, Step(c, e).files)
  {
    if e.Result? && Matches(c, e, e.hash) && e.outcome.Fine? {
      FinishedIndexed(c, e.hash, true);
    } else {
      hide Step, Inv, Enabled;
      OthersKeepIndex(c, e);
    }
  }

  /** Anything but a success leaves the index alone, and no file ever goes. */
  lemma OthersKeepIndex(c: Cache, e: Event)
    requires Enabled(c, e) && !(e.Result? && Matches(c, e, e.hash) && e.outcome.Fine?)
    ensures Step(c, e).disk == c.disk && c.files.Keys <= Step(c, e).files.Keys
  {
  }

  /** In every run every cached image is in a file of the directory that is found by its hash. */
  lemma {:induction false} CachedIsThere(states: seq<Cache>, events: seq<Event>, i: nat)
    requires IsRun(states, events) && i < |states|
    ensures Indexed(states[i].disk, states[i].files)
  {
    if i == 0 {
    } else {
      hide Inv, Step, Enabled, Opened, Indexed;
      CachedIsThere(states, events, i - 1);
      RunKeepsInv(states, events, i - 1);
      StepIndexed(states[i - 1], events[i - 1]);
    }
  }
}
