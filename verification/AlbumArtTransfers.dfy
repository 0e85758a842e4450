/**
 The size that a finished copy job reports to the album art cache is the size of the file.
 */
module AlbumArtTransfers {
  import opened AlbumArtSpec
  import opened AlbumArtAccounting
  import opened AlbumArtEndings
  import CopyJobSpec
  import CopyJobRuns
  import CopyJobFairness

  function Sum(ns: seq<nat>): nat {
    if ns == [] then 0 else Sum(ns[..|ns| - 1]) + ns[|ns| - 1]
  }

  /** The writes to the file of this image from event i to event j. */
  function WritesOf(events: seq<Event>, h: string, i: nat, j: nat): seq<nat>
    requires i <= j <= |events|
  {
    if i == j then []
    else WritesOf(events, h, i, j - 1) + if events[j - 1].Writes? && events[j - 1].hash == h then [events[j - 1].n] else []
  }

  /** What each step of a copy adds to the file, up to state n. */
  ghost function Increments(run: nat -> CopyJobSpec.State, n: nat): seq<nat> {
    if n == 0 then [|run(0).pipe.flushed|]
    else
      var before, after := |run(n - 1).pipe.flushed|, |run(n).pipe.flushed|;
      Increments(run, n - 1) + [if before <= after then after - before else 0]
  }

  lemma SumOfMore(ns: seq<nat>, n: nat)
    ensures Sum(ns + [n]) == Sum(ns) + n
  {
    assert (ns + [n])[..|ns|] == ns;
  }

  lemma {:induction false} IncrementsSum(run: nat -> CopyJobSpec.State, event: nat -> CopyJobSpec.Event,
                                        first: CopyJobSpec.State, a: CopyJobSpec.Answers, n: nat)
    requires CopyJobFairness.IsInfiniteRun(run, event, first, a)
    ensures Sum(Increments(run, n)) == |run(n).pipe.flushed|
  {
    hide CopyJobFairness.IsInfiniteRun;
    if n == 0 {
      SumOfMore([], |run(0).pipe.flushed|);
      assert [] + [|run(0).pipe.flushed|] == Increments(run, 0);
    } else {
      IncrementsSum(run, event, first, a, n - 1);
      CopyJobFairness.RunStep(run, event, first, a, n - 1);
      CopyJobRuns.StepDelivers(run(n - 1), event(n - 1));
      SumOfMore(Increments(run, n - 1), |run(n).pipe.flushed| - |run(n - 1).pipe.flushed|);
    }
  }

  /** As long as a transfer gets no result, its file holds what was written to it. */
  lemma {:induction false} WrittenIsSum(states: seq<Cache>, events: seq<Event>, h: string, i: nat, j: nat)
    requires IsRun(states, events) && i <= j < |states|
    requires Downloading(states[i], h) && states[i].fetching[h].written == 0
    requires forall k :: i <= k < j ==> !Matches(states[k], events[k], h)
    ensures Downloading(states[j], h) && states[j].fetching[h].transfer == states[i].fetching[h].transfer
    ensures states[j].fetching[h].written == Sum(WritesOf(events, h, i, j))
    decreases j - i
  {
    hide Step, Opened, Enabled, Matches;
    if i < j {
      WrittenIsSum(states, events, h, i, j - 1);
      assert Enabled(states[j - 1], events[j - 1]);
      NoResult(states[j - 1], events[j - 1], h);
      if events[j - 1].Writes? && events[j - 1].hash == h {
        SumOfMore(WritesOf(events, h, i, j - 1), events[j - 1].n);
      } else {
        assert WritesOf(events, h, i, j) == WritesOf(events, h, i, j - 1);
      }
    }
  }

  /** A transfer whose writes are those of a copy job that has finished: if it then counts as
      fine, the cache adds exactly the amount that job reported last, which is the size of the
      cached file, whatever other downloads do meanwhile. */
  lemma SuccessAddsReportedSize(
      states: seq<Cache>, events: seq<Event>, h: string, i: nat, j: nat, opens: bool, clears: bool,
      run: nat -> CopyJobSpec.State, event: nat -> CopyJobSpec.Event, first: CopyJobSpec.State, a: CopyJobSpec.Answers, n: nat)
    requires IsRun(states, events) && i <= j < |states|
    requires Downloading(states[i], h) && states[i].fetching[h].written == 0
    requires forall k :: i <= k < j ==> !Matches(states[k], events[k], h)
    requires CopyJobFairness.IsInfiniteRun(run, event, first, a) && !first.setup.sequentialSink && run(n).finished
    requires WritesOf(events, h, i, j) == Increments(run, n)
    ensures Downloading(states[j], h) && run(n).progress != []
    ensures var c, job := states[j], states[j].fetching[h];
      var d := Step(c, Result(h, job.transfer.value, Fine, opens, clears));
      var reported := run(n).progress[|run(n).progress| - 1];
      && d.diskSize == c.diskSize + reported
      && job.FileName() in d.files && d.files[job.FileName()] == reported
  {
    hide CopyJobFairness.IsInfiniteRun, Opened, Enabled, WritesOf, Increments, Inv, Step, Matches;
    WrittenIsSum(states, events, h, i, j);
    IncrementsSum(run, event, first, a, n);
    CopyJobFairness.ReportedSizeIsFileSize(run, event, first, a, n);
    RunKeepsInv(states, events, j);
    FineAdds(states[j], h, opens, clears);
  }

  lemma FineAdds(c: Cache, h: string, opens: bool, clears: bool)
    requires Inv(c) && Downloading(c, h)
    ensures var job := c.fetching[h];
      var d := Step(c, Result(h, job.transfer.value, Fine, opens, clears));
      && d.diskSize == c.diskSize + job.written
      && job.FileName() in d.files && d.files[job.FileName()] == job.written
  {
    assert JobOk(c, h);
  }
}
