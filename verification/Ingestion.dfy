/**
 * Dataset and run states of services/ingestion.py, with the worker's timeout and
 * the sweep for stalled runs (worker/main.py). Times are seconds.
 */
module Ingestion {
  import opened Options

  const JOB_TIMEOUT := 900
  const STALE_AFTER := 1800
  const SWEEP_INTERVAL := 600

  datatype Status = Uploaded | Analyzing | Ready | Failed
  datatype RunStatus = Running | Succeeded | RunFailed
  datatype IngestionRun = IngestionRun(dataset: nat, status: RunStatus, startedAt: int, finishedAt: Option<int>)

  type Datasets = map<nat, Status>
  type Runs = map<nat, IngestionRun>

  // ----- the operations on the rows --------------------------------------------------------

  predicate Stalled(run: IngestionRun, cutoff: int) {
    run.status == Running && run.startedAt < cutoff
  }

  predicate HasStalledRun(runs: Runs, d: nat, cutoff: int) {
    exists r :: r in runs && runs[r].dataset == d && Stalled(runs[r], cutoff)
  }

  function StalledRuns(runs: Runs, cutoff: int): set<nat> {
    set r | r in runs && Stalled(runs[r], cutoff)
  }

  function Finish(run: IngestionRun, status: RunStatus, now: int): IngestionRun {
    run.(status := status, finishedAt := Some(now))
  }

  function SweptRuns(runs: Runs, now: int): Runs {
    map r | r in runs :: if Stalled(runs[r], now - STALE_AFTER) then Finish(runs[r], RunFailed, now) else runs[r]
  }

  function SweptDatasets(datasets: Datasets, runs: Runs, now: int): Datasets {
    map d | d in datasets ::
      if datasets[d] == Analyzing && HasStalledRun(runs, d, now - STALE_AFTER) then Failed else datasets[d]
  }

  class Store {
    var datasets: Datasets
    var runs: Runs

    constructor ()
      ensures datasets == map[] && runs == map[]
    {
      datasets, runs := map[], map[];
    }

    /** The first commit of `ingest_dataset`: a running run and an analysing dataset, together. */
    method BeginIngestion(d: nat, r: nat, now: int) returns (found: bool)
      modifies this
      ensures found <==> d in old(datasets)
      ensures !found ==> datasets == old(datasets) && runs == old(runs)
      ensures found ==>
                && datasets == old(datasets)[d := Analyzing]
                && runs == old(runs)[r := IngestionRun(d, Running, now, None)]
    {
      if d !in datasets {
        return false;
      }
      runs := runs[r := IngestionRun(d, Running, now, None)];
      datasets := datasets[d := Analyzing];
      return true;
    }

    /** The second commit: success, or the failure path that re-reads both rows. */
    method EndIngestion(d: nat, r: nat, ok: bool, now: int)
      requires ok ==> d in datasets && r in runs
      modifies this
      ensures datasets == if d in old(datasets) then old(datasets)[d := if ok then Ready else Failed]
                          else old(datasets)
      ensures runs == if r in old(runs) then
                        old(runs)[r := Finish(old(runs)[r], if ok then Succeeded else RunFailed, now)]
                      else old(runs)
    {
      if ok {
        datasets := datasets[d := Ready];
        runs := runs[r := runs[r].(status := Succeeded, finishedAt := Some(now))];
      } else {
        if d in datasets {
          datasets := datasets[d := Failed];
        }
        if r in runs {
          runs := runs[r := runs[r].(status := RunFailed, finishedAt := Some(now))];
        }
      }
    }

    method RecoverStalledRuns(now: int) returns (count: nat)
      modifies this
      ensures runs == SweptRuns(old(runs), now)
      ensures datasets == SweptDatasets(old(datasets), old(runs), now)
      ensures count == |StalledRuns(old(runs), now - STALE_AFTER)|
    {
      hide SweptSoFar;
      var cutoff := now - STALE_AFTER;
      var stalled := StalledRuns(runs, cutoff);
      count := |stalled|;
      var todo := stalled;
      ghost var done: set<nat> := {};
      SweptNone(datasets, runs, now);
      while todo != {}
        invariant todo + done == stalled && todo !! done
        invariant SweptSoFar(old(datasets), old(runs), datasets, runs, done, now)
        decreases todo
      {
        var r :| r in todo;
        SweepOne(old(datasets), old(runs), datasets, runs, done, r, now);
        runs := runs[r := runs[r].(status := RunFailed, finishedAt := Some(now))];
        var d := runs[r].dataset;
        if d in datasets && datasets[d] == Analyzing {
          datasets := datasets[d := Failed];
        }
        todo, done := todo - {r}, done + {r};
      }
      SweptAll(old(datasets), old(runs), datasets, runs, now);
    }
  }

  /** The rows while the runs in `done` have been dealt with. */
  ghost predicate SweptSoFar(datasets0: Datasets, runs0: Runs, datasets: Datasets, runs: Runs,
                             done: set<nat>, now: int) {
    && done <= runs0.Keys
    && runs.Keys == runs0.Keys && datasets.Keys == datasets0.Keys
    && (forall r :: r in runs ==> runs[r] == if r in done then Finish(runs0[r], RunFailed, now) else runs0[r])
    && (forall d :: d in datasets ==>
          datasets[d] == if datasets0[d] == Analyzing && Touched(runs0, done, d) then Failed else datasets0[d])
  }

  ghost predicate Touched(runs: Runs, done: set<nat>, d: nat) {
    exists r :: r in done && r in runs && runs[r].dataset == d
  }

  lemma SweptNone(datasets: Datasets, runs: Runs, now: int)
    ensures SweptSoFar(datasets, runs, datasets, runs, {}, now)
  {
  }

  lemma SweepOne(datasets0: Datasets, runs0: Runs, datasets: Datasets, runs: Runs, done: set<nat>, r: nat, now: int)
    requires SweptSoFar(datasets0, runs0, datasets, runs, done, now) && r in runs0 && r !in done
    ensures r in runs
    ensures var d := runs[r].dataset;
            SweptSoFar(datasets0, runs0,
                       if d in datasets && datasets[d] == Analyzing then datasets[d := Failed] else datasets,
                       runs[r := runs[r].(status := RunFailed, finishedAt := Some(now))], done + {r}, now)
  {
    forall d
      ensures Touched(runs0, done + {r}, d) <==> Touched(runs0, done, d) || runs0[r].dataset == d
    {
      if q :| q in done && q in runs0 && runs0[q].dataset == d {
        assert q in done + {r};
      }
      assert r in done + {r};
    }
  }

  lemma SweptAll(datasets0: Datasets, runs0: Runs, datasets: Datasets, runs: Runs, now: int)
    requires SweptSoFar(datasets0, runs0, datasets, runs, StalledRuns(runs0, now - STALE_AFTER), now)
    ensures runs == SweptRuns(runs0, now) && datasets == SweptDatasets(datasets0, runs0, now)
  {
    var done := StalledRuns(runs0, now - STALE_AFTER);
    forall d
      ensures Touched(runs0, done, d) <==> HasStalledRun(runs0, d, now - STALE_AFTER)
    {
      if q :| q in runs0 && runs0[q].dataset == d && Stalled(runs0[q], now - STALE_AFTER) {
        assert q in done;
      }
    }
  }

  // ----- the system: rows, live jobs, the clock -----------------------------------------------

  /** `live` are the runs whose job is still executing. */
  datatype State = State(now: int, lastSweep: int, datasets: Datasets, runs: Runs, live: set<nat>)

  datatype Event =
    | Upload(d: nat)
    | Start(d: nat, r: nat)
    | Succeed(r: nat)
    | Fail(r: nat)
    | Kill(r: nat)             // the worker died or the job timed out: nothing more is written
    | Clean(d: nat)            // a cleaning run marks the dataset ready
    | Delete(d: nat)
    | Sweep
    | Tick(seconds: nat)

  const START := State(0, 0, map[], map[], {})

  ghost predicate Enabled(s: State, e: Event) {
    match e
    case Upload(d) => d !in s.datasets
    case Start(_, r) => r !in s.runs && r !in s.live
    case Succeed(r) => r in s.live
    case Fail(r) => r in s.live
    case Kill(r) => r in s.live
    case Tick(seconds) =>
      // The worker ends a job at its timeout, and the sweep runs on schedule.
      && (forall r :: r in s.live && r in s.runs ==> s.now + seconds - s.runs[r].startedAt <= JOB_TIMEOUT)
      && s.now + seconds - s.lastSweep <= SWEEP_INTERVAL
    case _ => true
  }

  function Ended(s: State, r: nat, status: Status, runStatus: RunStatus): State {
    if r !in s.runs then s.(live := s.live - {r})
    else
      var d := s.runs[r].dataset;
      s.(live := s.live - {r},
         runs := s.runs[r := Finish(s.runs[r], runStatus, s.now)],
         datasets := if d in s.datasets then s.datasets[d := status] else s.datasets)
  }

  function Apply(s: State, e: Event): State {
    match e
    case Upload(d) => s.(datasets := s.datasets[d := Uploaded])
    case Start(d, r) =>
      if d !in s.datasets then s
      else s.(datasets := s.datasets[d := Analyzing], live := s.live + {r},
              runs := s.runs[r := IngestionRun(d, Running, s.now, None)])
    case Succeed(r) => Ended(s, r, Ready, Succeeded)
    case Fail(r) => Ended(s, r, Failed, RunFailed)
    case Kill(r) => s.(live := s.live - {r})
    case Clean(d) =>
      if d in s.datasets && (s.datasets[d] == Ready || s.datasets[d] == Analyzing) then
        s.(datasets := s.datasets[d := Ready])
      else s
    case Delete(d) =>
      s.(datasets := s.datasets - {d}, runs := map r | r in s.runs && s.runs[r].dataset != d :: s.runs[r])
    case Sweep =>
      s.(runs := SweptRuns(s.runs, s.now), datasets := SweptDatasets(s.datasets, s.runs, s.now), lastSweep := s.now)
    case Tick(seconds) => s.(now := s.now + seconds)
  }

  function After(events: seq<Event>): State {
    if |events| == 0 then START else Apply(After(events[..|events| - 1]), events[|events| - 1])
  }

  ghost predicate IsRun(events: seq<Event>) {
    forall k :: 0 <= k < |events| ==> Enabled(After(events[..k]), events[k])
  }

  // ----- the invariant --------------------------------------------------------------------------

  /** The dataset has a running run no older than the last sweep allows. */
  ghost predicate HasRecentRun(s: State, d: nat) {
    exists r :: r in s.runs && s.runs[r].dataset == d && s.runs[r].status == Running
             && s.runs[r].startedAt >= s.lastSweep - STALE_AFTER
  }

  ghost predicate Inv(s: State) {
    && s.lastSweep <= s.now <= s.lastSweep + SWEEP_INTERVAL
    && (forall d :: d in s.datasets && s.datasets[d] == Analyzing ==> HasRecentRun(s, d))
    && (forall r :: r in s.runs ==> s.runs[r].startedAt <= s.now && s.runs[r].dataset in s.datasets)
    && (forall r :: r in s.live && r in s.runs ==>
          s.runs[r].status == Running && s.now - s.runs[r].startedAt <= JOB_TIMEOUT)
  }

  lemma EndingKeepsInv(s: State, r: nat, status: Status, runStatus: RunStatus)
    requires Inv(s) && r in s.live && status != Analyzing && runStatus != Running
    ensures Inv(Ended(s, r, status, runStatus))
  {
    var t := Ended(s, r, status, runStatus);
    forall d | d in t.datasets && t.datasets[d] == Analyzing
      ensures HasRecentRun(t, d)
    {
      assert HasRecentRun(s, d);
      var q :| q in s.runs && s.runs[q].dataset == d && s.runs[q].status == Running
            && s.runs[q].startedAt >= s.lastSweep - STALE_AFTER;
      assert t.runs[q] == s.runs[q];
    }
  }

  lemma SweepKeepsInv(s: State)
    requires Inv(s)
    ensures Inv(Apply(s, Sweep))
  {
    var t := Apply(s, Sweep);
    forall d | d in t.datasets && t.datasets[d] == Analyzing
      ensures HasRecentRun(t, d)
    {
      assert HasRecentRun(s, d);
      var q :| q in s.runs && s.runs[q].dataset == d && s.runs[q].status == Running
            && s.runs[q].startedAt >= s.lastSweep - STALE_AFTER;
      assert !Stalled(s.runs[q], s.now - STALE_AFTER);
      assert t.runs[q] == s.runs[q];
    }
  }

  lemma OtherStepsKeepInv(s: State, e: Event)
    requires Inv(s) && Enabled(s, e) && !e.Succeed? && !e.Fail? && !e.Sweep?
    ensures Inv(Apply(s, e))
  {
    var t := Apply(s, e);
    forall d | d in t.datasets && t.datasets[d] == Analyzing
      ensures HasRecentRun(t, d)
    {
      if d in s.datasets && s.datasets[d] == Analyzing {
        assert HasRecentRun(s, d);
        var q :| q in s.runs && s.runs[q].dataset == d && s.runs[q].status == Running
              && s.runs[q].startedAt >= s.lastSweep - STALE_AFTER;
        assert q in t.runs && t.runs[q] == s.runs[q];
      } else if e.Start? {
        assert t.runs[e.r].dataset == d;
      }
    }
  }

  lemma StepKeepsInv(s: State, e: Event)
    requires Inv(s) && Enabled(s, e)
    ensures Inv(Apply(s, e))
  {
    if e.Succeed? {
      EndingKeepsInv(s, e.r, Ready, Succeeded);
    } else if e.Fail? {
      EndingKeepsInv(s, e.r, Failed, RunFailed);
    } else if e.Sweep? {
      SweepKeepsInv(s);
    } else {
      OtherStepsKeepInv(s, e);
    }
  }

  lemma {:induction false} EveryRunKeepsInv(events: seq<Event>)
    requires IsRun(events)
    ensures Inv(After(events))
  {
    if |events| > 0 {
      var n := |events| - 1;
      assert forall k :: 0 <= k < n ==> events[..n][..k] == events[..k];
      EveryRunKeepsInv(events[..n]);
      StepKeepsInv(After(events[..n]), events[n]);
    }
  }

  // ----- what it means -----------------------------------------------------------------------------

  /** An analysing dataset always has a running run. */
  lemma AnalysingMeansRunning(events: seq<Event>, d: nat)
    requires IsRun(events) && d in After(events).datasets && After(events).datasets[d] == Analyzing
    ensures exists r :: r in After(events).runs && After(events).runs[r].dataset == d
                     && After(events).runs[r].status == Running
  {
    EveryRunKeepsInv(events);
    assert HasRecentRun(After(events), d);
  }

  // ----- event by event, on the rows --------------------------------------------------------------

  /** Nothing changed but the status of one dataset. */
  ghost predicate OnlyDataset(s: State, t: State, d: nat) {
    && t.datasets.Keys + {d} == s.datasets.Keys + {d}
    && forall e :: e in s.datasets && e != d ==> t.datasets[e] == s.datasets[e]
  }

  /** Nothing changed but one run. */
  ghost predicate OnlyRun(s: State, t: State, r: nat) {
    && t.runs.Keys + {r} == s.runs.Keys + {r}
    && forall q :: q in s.runs && q != r ==> t.runs[q] == s.runs[q]
  }

  /** Starting an ingestion of a known dataset marks it analysing and opens a running run, which is live. */
  lemma StartMeans(s: State, e: Event)
    requires e.Start? && Enabled(s, e)
    ensures var t := Apply(s, e);
            && (e.d !in s.datasets ==> t == s)
            && (e.d in s.datasets ==>
                  && t.datasets[e.d] == Analyzing && OnlyDataset(s, t, e.d)
                  && t.runs[e.r] == IngestionRun(e.d, Running, s.now, None) && OnlyRun(s, t, e.r)
                  && t.live == s.live + {e.r} && t.now == s.now && t.lastSweep == s.lastSweep)
  {
  }

  /** A job that ends closes its run now, and with it the status of its dataset, if they are still there. */
  lemma EndMeans(s: State, e: Event)
    requires (e.Succeed? || e.Fail?) && Enabled(s, e)
    ensures var t := Apply(s, e);
            && t.live == s.live - {e.r} && t.now == s.now && t.lastSweep == s.lastSweep
            && (e.r !in s.runs ==> t.runs == s.runs && t.datasets == s.datasets)
            && (e.r in s.runs ==>
                  var run := s.runs[e.r];
                  && OnlyRun(s, t, e.r) && e.r in t.runs
                  && t.runs[e.r] == IngestionRun(run.dataset, if e.Succeed? then Succeeded else RunFailed,
                                                 run.startedAt, Some(s.now))
                  && OnlyDataset(s, t, run.dataset) && t.datasets.Keys == s.datasets.Keys
                  && (run.dataset in s.datasets ==> t.datasets[run.dataset] == if e.Succeed? then Ready else Failed))
  {
  }

  /** A sweep fails the runs that started more than 1800 seconds ago and the analysing datasets that have one. */
  lemma SweepMeans(s: State)
    ensures var t := Apply(s, Sweep);
            && t.now == s.now == t.lastSweep && t.live == s.live
            && t.runs.Keys == s.runs.Keys && t.datasets.Keys == s.datasets.Keys
            && (forall r :: r in s.runs ==>
                  var run := s.runs[r];
                  t.runs[r] == if run.status == Running && run.startedAt < s.now - 1800
                               then IngestionRun(run.dataset, RunFailed, run.startedAt, Some(s.now)) else run)
            && (forall d :: d in s.datasets ==>
                  var stalled := exists r :: r in s.runs && s.runs[r].dataset == d && s.runs[r].status == Running
                                          && s.runs[r].startedAt < s.now - 1800;
                  t.datasets[d] == if s.datasets[d] == Analyzing && stalled then Failed else s.datasets[d])
  {
  }

  /** The other events: an upload, a job that dies, a cleaning, a deletion with its runs, and time. */
  lemma OtherEventsMean(s: State, e: Event)
    requires Enabled(s, e) && (e.Upload? || e.Kill? || e.Clean? || e.Delete? || e.Tick?)
    ensures var t := Apply(s, e);
            && (e.Upload? ==> t == s.(datasets := s.datasets[e.d := Uploaded]))
            && (e.Kill? ==> t == s.(live := s.live - {e.r}))
            && (e.Clean? ==> t == s.(datasets := t.datasets) && OnlyDataset(s, t, e.d)
                             && t.datasets.Keys == s.datasets.Keys)
            && (e.Clean? && e.d in s.datasets ==>
                  t.datasets[e.d] == if s.datasets[e.d] in {Ready, Analyzing} then Ready else s.datasets[e.d])
            && (e.Delete? ==> t == s.(datasets := s.datasets - {e.d}, runs := t.runs)
                              && (forall r :: r in t.runs <==> r in s.runs && s.runs[r].dataset != e.d)
                              && forall r :: r in t.runs ==> t.runs[r] == s.runs[r])
            && (e.Tick? ==> t == s.(now := s.now + e.seconds))
  {
  }

  /** No live job is older than its timeout of 900 seconds. */
  lemma LiveJobsAreYoung(events: seq<Event>, r: nat)
    requires IsRun(events) && r in After(events).live && r in After(events).runs
    ensures var s := After(events); s.runs[r].status == Running && s.now - s.runs[r].startedAt <= 900
  {
    EveryRunKeepsInv(events);
  }

  /** A finished run never changes again; it can only go with its dataset. */
  lemma FinishedRunsNeverChange(s: State, e: Event, r: nat)
    requires Inv(s) && Enabled(s, e) && r in s.runs && s.runs[r].status != Running
    ensures r in Apply(s, e).runs ==> Apply(s, e).runs[r] == s.runs[r]
    ensures r !in Apply(s, e).runs ==> e == Delete(s.runs[r].dataset)
  {
  }

  /** Over any continuation of a run a finished ingestion stays as it ended, unless its dataset is deleted. */
  lemma {:induction false} FinishedForGood(events: seq<Event>, n: nat, r: nat)
    requires IsRun(events) && n <= |events|
    requires r in After(events[..n]).runs && After(events[..n]).runs[r].status != Running
    requires forall k :: n <= k < |events| ==> events[k] != Delete(After(events[..n]).runs[r].dataset)
    ensures r in After(events).runs && After(events).runs[r] == After(events[..n]).runs[r]
  {
    hide *;
    if n == |events| {
      assert events[..n] == events;
    } else {
      var m := |events| - 1;
      LastStep(events);
      assert events[..m][..n] == events[..n];
      FinishedForGood(events[..m], n, r);
      EveryRunKeepsInv(events[..m]);
      FinishedRunsNeverChange(After(events[..m]), events[m], r);
    }
  }

  lemma LastStep(events: seq<Event>)
    requires |events| > 0 && IsRun(events)
    ensures var m := |events| - 1;
            && IsRun(events[..m]) && Enabled(After(events[..m]), events[m])
            && After(events) == Apply(After(events[..m]), events[m])
  {
    hide Apply;
    hide Enabled;
    var m := |events| - 1;
    assert forall k :: 0 <= k < m ==> events[..m][..k] == events[..k];
  }

  /** The sweep never fails a run whose job is alive: the timeout is below the threshold. */
  lemma SweepSparesLiveRuns(events: seq<Event>, r: nat)
    requires IsRun(events) && r in After(events).live && r in After(events).runs
    ensures var s := After(events);
            && s.runs[r].status == Running
            && r in Apply(s, Sweep).runs && Apply(s, Sweep).runs[r] == s.runs[r]
  {
    EveryRunKeepsInv(events);
    LiveRunIsNotStalled(After(events), r);
  }

  lemma LiveRunIsNotStalled(s: State, r: nat)
    requires Inv(s) && r in s.live && r in s.runs
    ensures r in Apply(s, Sweep).runs && Apply(s, Sweep).runs[r] == s.runs[r]
  {
  }

  /** After any sweep, every dataset still analysing has a run started within the threshold. */
  lemma SweepLeavesOnlyRecent(events: seq<Event>, d: nat)
    requires IsRun(events)
    requires var t := Apply(After(events), Sweep); d in t.datasets && t.datasets[d] == Analyzing
    ensures var t := Apply(After(events), Sweep);
            exists r :: r in t.runs && t.runs[r].dataset == d && t.runs[r].status == Running
                     && t.now - t.runs[r].startedAt <= STALE_AFTER
  {
    EveryRunKeepsInv(events);
    SweepKeepsInv(After(events));
    var t := Apply(After(events), Sweep);
    assert HasRecentRun(t, d);
  }

  /** No dataset is stranded: while it is analysing, its latest start is at most 2400 seconds ago. */
  lemma StrandedAtMost2400Seconds(events: seq<Event>, d: nat)
    requires IsRun(events) && d in After(events).datasets && After(events).datasets[d] == Analyzing
    ensures var s := After(events);
            exists r :: r in s.runs && s.runs[r].dataset == d && s.runs[r].status == Running
                     && s.now - s.runs[r].startedAt <= STALE_AFTER + SWEEP_INTERVAL == 2400
  {
    EveryRunKeepsInv(events);
    var s := After(events);
    assert HasRecentRun(s, d);
    var r :| r in s.runs && s.runs[r].dataset == d && s.runs[r].status == Running
          && s.runs[r].startedAt >= s.lastSweep - STALE_AFTER;
  }

  // ----- what the sweep does to a dataset that is being ingested again -----------------------------------

  /**
   * The sweep spares live runs but not their datasets: one being ingested again
   * is marked failed exactly when an abandoned run of it is still on record.
   */
  lemma SweepFailsALiveDatasetExactlyWhen(s: State, d: nat, r: nat)
    requires Inv(s) && d in s.datasets && s.datasets[d] == Analyzing
    requires r in s.live && r in s.runs && s.runs[r].dataset == d
    ensures var t := Apply(s, Sweep);
            && t.runs[r].status == Running
            && (t.datasets[d] == Failed <==>
                  exists q :: q in s.runs && q != r && s.runs[q].dataset == d && s.runs[q].status == Running
                           && s.runs[q].startedAt < s.now - STALE_AFTER)
  {
    if q :| q in s.runs && s.runs[q].dataset == d && Stalled(s.runs[q], s.now - STALE_AFTER) {
      assert q != r;
    }
  }

  const FIRST_ATTEMPT: seq<Event> := [Upload(0), Start(0, 0), Kill(0)]

  /** Killed once, picked up again half an hour later, and swept: a run that shows it happens. */
  function KilledThenRetried(): seq<Event> {
    FIRST_ATTEMPT + [Tick(600)] + [Sweep] + [Tick(600)] + [Sweep] + [Tick(600)] + [Sweep] + [Tick(1)] + [Start(0, 1)]
  }

  lemma OneMore(events: seq<Event>, e: Event)
    requires IsRun(events) && Enabled(After(events), e)
    ensures IsRun(events + [e]) && After(events + [e]) == Apply(After(events), e)
  {
    var longer := events + [e];
    assert longer[..|events|] == events;
    forall k | 0 <= k < |longer|
      ensures Enabled(After(longer[..k]), longer[k])
    {
      assert k < |events| ==> longer[..k] == events[..k];
    }
  }

  /** A sweep that comes before the threshold changes nothing but its own time. */
  lemma EarlySweep(s: State)
    requires forall r :: r in s.runs ==> s.runs[r].startedAt >= s.now - STALE_AFTER
    ensures Apply(s, Sweep) == s.(lastSweep := s.now)
  {
    assert SweptRuns(s.runs, s.now) == s.runs;
    assert SweptDatasets(s.datasets, s.runs, s.now) == s.datasets;
  }

  lemma TickAndSweep(events: seq<Event>, datasets: Datasets, runs: Runs, now: int)
    requires IsRun(events) && After(events) == State(now, now, datasets, runs, {})
    requires forall r :: r in runs ==> runs[r].startedAt >= now + SWEEP_INTERVAL - STALE_AFTER
    ensures IsRun(events + [Tick(600)] + [Sweep])
    ensures After(events + [Tick(600)] + [Sweep]) == State(now + 600, now + 600, datasets, runs, {})
  {
    OneMore(events, Tick(600));
    OneMore(events + [Tick(600)], Sweep);
    EarlySweep(After(events + [Tick(600)]));
  }

  const ANALYSING: Datasets := map[0 := Analyzing]
  const ABANDONED: Runs := map[0 := IngestionRun(0, Running, 0, None)]

  lemma FirstAttemptIsAbandoned()
    ensures IsRun(FIRST_ATTEMPT) && After(FIRST_ATTEMPT) == State(0, 0, ANALYSING, ABANDONED, {})
  {
    OneMore([], Upload(0));
    OneMore([] + [Upload(0)], Start(0, 0));
    OneMore([] + [Upload(0)] + [Start(0, 0)], Kill(0));
    assert FIRST_ATTEMPT == [] + [Upload(0)] + [Start(0, 0)] + [Kill(0)];
  }

  /** Three sweeps on, the abandoned run sits exactly on the threshold and is still there. */
  lemma HalfAnHourLater() returns (e: seq<Event>)
    ensures e == FIRST_ATTEMPT + [Tick(600)] + [Sweep] + [Tick(600)] + [Sweep] + [Tick(600)] + [Sweep]
    ensures IsRun(e) && After(e) == State(1800, 1800, ANALYSING, ABANDONED, {})
  {
    hide Apply;
    hide After;
    hide IsRun;
    FirstAttemptIsAbandoned();
    e := FIRST_ATTEMPT;
    TickAndSweep(e, ANALYSING, ABANDONED, 0);
    e := e + [Tick(600)] + [Sweep];
    TickAndSweep(e, ANALYSING, ABANDONED, 600);
    e := e + [Tick(600)] + [Sweep];
    TickAndSweep(e, ANALYSING, ABANDONED, 1200);
    e := e + [Tick(600)] + [Sweep];
  }

  const RETRIED: State :=
    State(1801, 1800, ANALYSING, map[0 := IngestionRun(0, Running, 0, None), 1 := IngestionRun(0, Running, 1801, None)],
          {1})

  lemma RetriedIsReached()
    ensures IsRun(KilledThenRetried()) && After(KilledThenRetried()) == RETRIED
  {
    var e := HalfAnHourLater();
    assert KilledThenRetried() == e + [Tick(1)] + [Start(0, 1)];
    OneSecondLater();
    RetryStarts();
    hide *;
    OneMore(e, Tick(1));
    OneMore(e + [Tick(1)], Start(0, 1));
  }

  lemma OneSecondLater()
    ensures var s := State(1800, 1800, ANALYSING, ABANDONED, {});
            Enabled(s, Tick(1)) && Apply(s, Tick(1)) == State(1801, 1800, ANALYSING, ABANDONED, {})
  {
  }

  lemma RetryStarts()
    ensures var s := State(1801, 1800, ANALYSING, ABANDONED, {});
            Enabled(s, Start(0, 1)) && Apply(s, Start(0, 1)) == RETRIED
  {
    assert ANALYSING[0 := Analyzing] == ANALYSING;
  }

  lemma LiveDatasetCanBeFailed()
    ensures IsRun(KilledThenRetried())
    ensures var s := After(KilledThenRetried());
            && 1 in s.live && s.datasets[0] == Analyzing
            && Apply(s, Sweep).datasets[0] == Failed
            && Apply(s, Sweep).runs[1].status == Running
  {
    RetriedIsReached();
    hide After;
    hide IsRun;
    var runs := RETRIED.runs;
    assert 0 in runs && runs[0].dataset == 0 && Stalled(runs[0], 1801 - STALE_AFTER);
    assert HasStalledRun(runs, 0, 1801 - STALE_AFTER);
  }
}
