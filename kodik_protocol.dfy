/**
 * The file-commit protocol of `KodikFastDownloader.fast_download`, stated as
 * functions over an abstract file system: the segment fetch with its single
 * SSL retry, the scheduling pass that skips finished segments and downloads
 * the others to temp files, and the commit pass that renames a temp file to
 * its final name only when its download succeeded.
 */
module KodikProtocol {
  import opened PyText
  import opened Paths
  import opened KodikSegments

  type Bytes = seq<bv8>

  /** What a file holds: bytes written in binary mode, or text written in text mode. */
  datatype Content = Data(bytes: Bytes) | Text(text: string)

  /** What one `requests.get` does: a body (whatever the status), an SSL error, or another error. */
  datatype HttpOutcome = Response(body: Bytes) | SslError | OtherError

  /**
   * The network as seen by `_download_segment`: the outcome of the
   * `attempt`-th GET of `url` within one call (attempt 0, then 1 on retry).
   */
  type Network = (string, nat) -> HttpOutcome

  /** The result of `_download_segment`: the body it wrote, or the exception it let through. */
  datatype Fetch = Fetched(body: Bytes) | FetchFailed

  /** Why `fast_download` raised. */
  datatype Failure =
    | FfmpegMissing       // `check_ffmpeg` raised `ModuleNotFoundError`
    | LinkUnavailable     // the Kodik parser raised
    | ManifestUnavailable // fetching the manifest raised
    | MalformedManifest   // `_get_segments` raised `IndexError`
    | SegmentFailed       // `future.result()` re-raised a download error
    | TempSegmentMissing  // `rename` found no temp file
    | NonIntegerStem      // the sort key `int(path.stem)` raised `ValueError`
    | MuxerFailed         // ffmpeg exited with an error

  // ---------------------------------------------------------------------------
  // `_download_segment`: one GET, and one more only after an SSL error
  // ---------------------------------------------------------------------------

  /** The GETs one `_download_segment` call issues, in order. */
  function Attempts(net: Network, url: string): (r: seq<string>)
    ensures 1 <= |r| <= 2 && forall k :: 0 <= k < |r| ==> r[k] == url
    ensures |r| == 2 <==> net(url, 0).SslError?
  {
    if net(url, 0).SslError? then [url, url] else [url]
  }

  /** The outcome of one `_download_segment` call. */
  function FetchWithRetry(net: Network, url: string): (r: Fetch)
    ensures r.Fetched? <==> net(url, 0).Response? || (net(url, 0).SslError? && net(url, 1).Response?)
    ensures r.Fetched? ==> r.body == if net(url, 0).Response? then net(url, 0).body else net(url, 1).body
  {
    match net(url, 0)
    case Response(body) => Fetched(body)
    case OtherError => FetchFailed
    case SslError =>
      match net(url, 1)
      case Response(body) => Fetched(body)
      case _ => FetchFailed
  }

  /**
   * The retry is taken only after an SSL error and only once: a first
   * response is used as is, any other first error is final, and an error on
   * the retry is final whatever its kind.
   */
  lemma RetryPolicy(net: Network, url: string)
    ensures net(url, 0).OtherError? ==> FetchWithRetry(net, url) == FetchFailed && Attempts(net, url) == [url]
    ensures net(url, 0).Response? ==> FetchWithRetry(net, url) == Fetched(net(url, 0).body) && Attempts(net, url) == [url]
    ensures net(url, 0).SslError? && !net(url, 1).Response? ==> FetchWithRetry(net, url) == FetchFailed
  {
  }

  /** The result depends only on the first two outcomes for that URL. */
  lemma FetchDependsOnTwoAttempts(n1: Network, n2: Network, url: string)
    requires n1(url, 0) == n2(url, 0) && n1(url, 1) == n2(url, 1)
    ensures FetchWithRetry(n1, url) == FetchWithRetry(n2, url) && Attempts(n1, url) == Attempts(n2, url)
  {
  }

  // ---------------------------------------------------------------------------
  // The abstract file system
  // ---------------------------------------------------------------------------

  /** `os.path.exists(p)`: a file or a directory is there. */
  predicate Exists(files: map<Path, Content>, dirs: set<string>, p: Path) {
    p in files || PathString(p) in dirs
  }

  /** `src.rename(dst)` on an existing file: `dst` is replaced by `src`'s content. */
  function Rename(files: map<Path, Content>, src: Path, dst: Path): (r: map<Path, Content>)
    requires src in files
    ensures dst in r && r[dst] == files[src]
    ensures src != dst ==> src !in r
    ensures forall p :: p != src && p != dst ==> (p in r <==> p in files) && (p in r ==> r[p] == files[p])
  {
    if src == dst then files else (files - {src})[dst := files[src]]
  }

  /** `Path(tmp_dir, f'{idx}.ts')` */
  function FinalPath(dir: string, s: Segment): Path {
    Path(dir, SegmentFileName(s.index))
  }

  /** `segment_path.with_stem(f'{segment_path.stem}~')` */
  function TempPath(dir: string, s: Segment): Path {
    Path(dir, TempSegmentFileName(s.index))
  }

  /** No segment index ends with `~`, so no temp name is ever some segment's final name. */
  predicate NoTildeIndex(segs: seq<Segment>) {
    forall k :: 0 <= k < |segs| ==> segs[k].index == [] || segs[k].index[|segs[k].index| - 1] != '~'
  }

  predicate DistinctIndices(segs: seq<Segment>) {
    forall i, j :: 0 <= i < j < |segs| ==> segs[i].index != segs[j].index
  }

  // ---------------------------------------------------------------------------
  // Scheduling: the `for i in range(thr)` loop that fills `tasks`
  // ---------------------------------------------------------------------------

  /** A submitted download: where it writes, what it is renamed to, and how it ended. */
  datatype Task = Task(temp: Path, final: Path, fetch: Fetch)

  /** The state after part of the scheduling loop: files, the tasks so far, the GETs so far. */
  datatype Scheduled = Scheduled(files: map<Path, Content>, tasks: seq<Task>, requests: seq<string>)

  /** The task submitted for a segment. */
  function TaskFor(dir: string, s: Segment, net: Network): Task {
    Task(TempPath(dir, s), FinalPath(dir, s), FetchWithRetry(net, s.url))
  }

  /**
   * One iteration: a segment whose final file exists is skipped; otherwise
   * its stale temp file is deleted and the download writes the temp file.
   * The pool's task is taken to run at submission.
   */
  function ScheduleStep(st: Scheduled, dirs: set<string>, dir: string, s: Segment, net: Network): Scheduled {
    if Exists(st.files, dirs, FinalPath(dir, s)) then st
    else
      var t := TaskFor(dir, s, net);
      var cleared := st.files - {t.temp};
      var written := if t.fetch.Fetched? then cleared[t.temp := Data(t.fetch.body)] else cleared;
      Scheduled(written, st.tasks + [t], st.requests + Attempts(net, s.url))
  }

  /** The scheduling loop over `segs`, starting from `files`. */
  function Schedule(files: map<Path, Content>, dirs: set<string>, dir: string, segs: seq<Segment>, net: Network): Scheduled
    decreases |segs|
  {
    if |segs| == 0 then Scheduled(files, [], [])
    else ScheduleStep(Schedule(files, dirs, dir, segs[..|segs| - 1], net), dirs, dir, segs[|segs| - 1], net)
  }

  /** The segments whose final file is absent before the loop, in order. */
  function Pending(files: map<Path, Content>, dirs: set<string>, dir: string, segs: seq<Segment>): seq<Segment>
    decreases |segs|
  {
    if |segs| == 0 then []
    else
      var init := Pending(files, dirs, dir, segs[..|segs| - 1]);
      var s := segs[|segs| - 1];
      if Exists(files, dirs, FinalPath(dir, s)) then init else init + [s]
  }

  /** The GETs issued for a list of segments, segment by segment. */
  function AllAttempts(net: Network, segs: seq<Segment>): seq<string>
    decreases |segs|
  {
    if |segs| == 0 then [] else AllAttempts(net, segs[..|segs| - 1]) + Attempts(net, segs[|segs| - 1].url)
  }

  /** The tasks submitted for a list of segments, in order. */
  function TasksFor(dir: string, segs: seq<Segment>, net: Network): seq<Task>
    decreases |segs|
  {
    if |segs| == 0 then [] else TasksFor(dir, segs[..|segs| - 1], net) + [TaskFor(dir, segs[|segs| - 1], net)]
  }

  lemma {:induction false} TasksForIndex(dir: string, segs: seq<Segment>, net: Network)
    ensures |TasksFor(dir, segs, net)| == |segs|
    ensures forall k :: 0 <= k < |segs| ==> TasksFor(dir, segs, net)[k] == TaskFor(dir, segs[k], net)
    decreases |segs|
  {
    if |segs| > 0 {
      var init := segs[..|segs| - 1];
      TasksForIndex(dir, init, net);
      assert forall k :: 0 <= k < |init| ==> init[k] == segs[k];
    }
  }

  /** One scheduling step changes no path but the temp path of its segment. */
  lemma StepOnlyTemp(st: Scheduled, dirs: set<string>, dir: string, s: Segment, net: Network, p: Path)
    requires p != TempPath(dir, s)
    ensures var r := ScheduleStep(st, dirs, dir, s, net).files;
            (p in r <==> p in st.files) && (p in st.files ==> r[p] == st.files[p])
  {
  }

  /** Scheduling touches nothing but the temp paths of the segments. */
  lemma {:induction false} ScheduleOnlyTemps(files: map<Path, Content>, dirs: set<string>, dir: string, segs: seq<Segment>, net: Network, p: Path)
    requires forall k :: 0 <= k < |segs| ==> p != TempPath(dir, segs[k])
    ensures var r := Schedule(files, dirs, dir, segs, net).files;
            (p in r <==> p in files) && (p in files ==> r[p] == files[p])
    decreases |segs|
  {
    if |segs| > 0 {
      var init := segs[..|segs| - 1];
      assert forall k :: 0 <= k < |init| ==> init[k] == segs[k];
      ScheduleOnlyTemps(files, dirs, dir, init, net, p);
      StepOnlyTemp(Schedule(files, dirs, dir, init, net), dirs, dir, segs[|segs| - 1], net, p);
    }
  }

  /** A final path is no temp path of any segment when its index does not end with `~`. */
  lemma FinalIsNoTemp(dir: string, segs: seq<Segment>, s: Segment)
    requires s.index == [] || s.index[|s.index| - 1] != '~'
    ensures forall k :: 0 <= k < |segs| ==> FinalPath(dir, s) != TempPath(dir, segs[k])
  {
    forall k | 0 <= k < |segs| ensures FinalPath(dir, s) != TempPath(dir, segs[k]) {
      TempNeverFinal(segs[k].index, s.index);
    }
  }

  /** Dropping the last segment keeps the property that no index ends with `~`. */
  lemma NoTildeInit(segs: seq<Segment>)
    requires NoTildeIndex(segs) && |segs| > 0
    ensures NoTildeIndex(segs[..|segs| - 1])
  {
    var init := segs[..|segs| - 1];
    assert forall k :: 0 <= k < |init| ==> init[k] == segs[k];
  }

  /**
   * With no index ending in `~`, the scheduling loop submits exactly one task
   * per segment whose final file was absent before the loop, in manifest
   * order, and issues GETs for those segments only.
   */
  lemma {:induction false} ScheduleTasks(files: map<Path, Content>, dirs: set<string>, dir: string, segs: seq<Segment>, net: Network)
    requires NoTildeIndex(segs)
    ensures Schedule(files, dirs, dir, segs, net).tasks == TasksFor(dir, Pending(files, dirs, dir, segs), net)
    ensures Schedule(files, dirs, dir, segs, net).requests == AllAttempts(net, Pending(files, dirs, dir, segs))
    decreases |segs|
  {
    if |segs| > 0 {
      var init, s := segs[..|segs| - 1], segs[|segs| - 1];
      NoTildeInit(segs);
      ScheduleTasks(files, dirs, dir, init, net);
      FinalIsNoTemp(dir, init, s);
      ScheduleOnlyTemps(files, dirs, dir, init, net, FinalPath(dir, s));
      var pInit := Pending(files, dirs, dir, init);
      assert (pInit + [s])[..|pInit|] == pInit;
    }
  }

  /**
   * A segment whose final file exists before the loop gets no task: every
   * submitted task is for a final path that was absent.
   */
  lemma ScheduleSkipsFinished(files: map<Path, Content>, dirs: set<string>, dir: string, segs: seq<Segment>, net: Network, k: nat)
    requires NoTildeIndex(segs)
    requires k < |Schedule(files, dirs, dir, segs, net).tasks|
    ensures !Exists(files, dirs, Schedule(files, dirs, dir, segs, net).tasks[k].final)
  {
    ScheduleTasks(files, dirs, dir, segs, net);
    TasksForIndex(dir, Pending(files, dirs, dir, segs), net);
    PendingAbsent(files, dirs, dir, segs);
  }

  lemma {:induction false} PendingAbsent(files: map<Path, Content>, dirs: set<string>, dir: string, segs: seq<Segment>)
    ensures forall k :: 0 <= k < |Pending(files, dirs, dir, segs)| ==> !Exists(files, dirs, FinalPath(dir, Pending(files, dirs, dir, segs)[k]))
    decreases |segs|
  {
    if |segs| > 0 {
      PendingAbsent(files, dirs, dir, segs[..|segs| - 1]);
    }
  }

  /** A segment absent before the loop is pending: the loop does not skip it. */
  lemma {:induction false} PendingComplete(files: map<Path, Content>, dirs: set<string>, dir: string, segs: seq<Segment>, j: nat)
    requires j < |segs| && !Exists(files, dirs, FinalPath(dir, segs[j]))
    ensures segs[j] in Pending(files, dirs, dir, segs)
    decreases |segs|
  {
    if j < |segs| - 1 {
      var init := segs[..|segs| - 1];
      assert init[j] == segs[j];
      PendingComplete(files, dirs, dir, init, j);
    }
  }

  /** A pending segment carries none of the indices the segments avoid. */
  lemma {:induction false} PendingAvoids(files: map<Path, Content>, dirs: set<string>, dir: string, segs: seq<Segment>, idx: string)
    requires forall k :: 0 <= k < |segs| ==> segs[k].index != idx
    ensures forall k :: 0 <= k < |Pending(files, dirs, dir, segs)| ==> Pending(files, dirs, dir, segs)[k].index != idx
    decreases |segs|
  {
    if |segs| > 0 {
      var init := segs[..|segs| - 1];
      assert forall k :: 0 <= k < |init| ==> init[k] == segs[k];
      PendingAvoids(files, dirs, dir, init, idx);
    }
  }

  /** Whether the temp file of `s` holds exactly what its download fetched (and is absent after a failure). */
  predicate TempHoldsFetch(files: map<Path, Content>, dir: string, s: Segment, net: Network) {
    var f := FetchWithRetry(net, s.url);
    (TempPath(dir, s) in files <==> f.Fetched?) && (f.Fetched? ==> files[TempPath(dir, s)] == Data(f.body))
  }

  /**
   * With distinct indices (and none ending in `~`), after the loop each
   * submitted segment's temp file holds exactly what its download fetched,
   * and is absent when the download failed: a stale temp file never survives.
   */
  lemma {:induction false} ScheduleTempContents(files: map<Path, Content>, dirs: set<string>, dir: string, segs: seq<Segment>, net: Network)
    requires NoTildeIndex(segs) && DistinctIndices(segs)
    ensures forall k :: 0 <= k < |Pending(files, dirs, dir, segs)| ==>
              TempHoldsFetch(Schedule(files, dirs, dir, segs, net).files, dir, Pending(files, dirs, dir, segs)[k], net)
    decreases |segs|
  {
    if |segs| > 0 {
      var init, s := segs[..|segs| - 1], segs[|segs| - 1];
      NoTildeInit(segs);
      assert DistinctIndices(init) && forall k :: 0 <= k < |init| ==> init[k].index != s.index by {
        assert forall k :: 0 <= k < |init| ==> init[k] == segs[k];
      }
      ScheduleTempContents(files, dirs, dir, init, net);
      PendingAvoids(files, dirs, dir, init, s.index);
      var prev := Schedule(files, dirs, dir, init, net);
      var pInit := Pending(files, dirs, dir, init);
      FinalIsNoTemp(dir, init, s);
      ScheduleOnlyTemps(files, dirs, dir, init, net, FinalPath(dir, s));
      forall k | 0 <= k < |pInit| ensures TempHoldsFetch(Schedule(files, dirs, dir, segs, net).files, dir, pInit[k], net) {
        TempNameInjective(pInit[k].index, s.index);
        StepOnlyTemp(prev, dirs, dir, s, net, TempPath(dir, pInit[k]));
      }
    }
  }

  /** Different indices give different temp names. */
  lemma TempNameInjective(a: string, b: string)
    requires a != b
    ensures TempSegmentFileName(a) != TempSegmentFileName(b)
  {
    var ta, tb := TempSegmentFileName(a), TempSegmentFileName(b);
    if a != [] && b != [] {
      assert ta[..|ta| - 4] == a;
      assert tb[..|tb| - 4] == b;
    } else if a == [] {
      assert ta[|ta| - 1] == '~';
      assert tb[|tb| - 1] == 's';
    } else {
      assert ta[|ta| - 1] == 's';
      assert tb[|tb| - 1] == '~';
    }
  }

  // ---------------------------------------------------------------------------
  // Commit: the `as_completed` loop that renames finished temp files
  // ---------------------------------------------------------------------------

  /** The files after part of the commit loop, and the exception that ended it, if any. */
  datatype Committed = Committed(files: map<Path, Content>, failure: Option<Failure>)

  /** A completion order: distinct task numbers, each below `n`. */
  predicate IsCompletionOrder(order: seq<nat>, n: nat) {
    (forall k :: 0 <= k < |order| ==> order[k] < n)
    && (forall i, j :: 0 <= i < j < |order| ==> order[i] != order[j])
  }

  /**
   * The commit loop over the tasks in completion order `order`: the first
   * task whose download raised ends the loop; a finished task has its temp
   * file renamed to its final name.
   */
  function Commit(files: map<Path, Content>, tasks: seq<Task>, order: seq<nat>): (c: Committed)
    requires forall k :: 0 <= k < |order| ==> order[k] < |tasks|
    decreases |order|
  {
    if |order| == 0 then Committed(files, None)
    else
      var prev := Commit(files, tasks, order[..|order| - 1]);
      var t := tasks[order[|order| - 1]];
      if prev.failure.Some? then prev
      else if t.fetch.FetchFailed? then Committed(prev.files, Some(SegmentFailed))
      else if t.temp !in prev.files then Committed(prev.files, Some(TempSegmentMissing))
      else Committed(Rename(prev.files, t.temp, t.final), None)
  }

  /**
   * Renamed only on success: a path the commit loop creates or changes is the
   * final path of a task whose download succeeded, and a path it removes is
   * the temp path of a task.
   */
  lemma {:induction false} CommitOnlyFromSucceeded(files: map<Path, Content>, tasks: seq<Task>, order: seq<nat>, p: Path)
    requires forall k :: 0 <= k < |order| ==> order[k] < |tasks|
    ensures var c := Commit(files, tasks, order);
            && (p in c.files && (p !in files || c.files[p] != files[p]) ==>
                  exists k :: 0 <= k < |tasks| && tasks[k].fetch.Fetched? && tasks[k].final == p)
            && (p in files && p !in c.files ==> exists k :: 0 <= k < |tasks| && tasks[k].temp == p)
    decreases |order|
  {
    if |order| > 0 {
      CommitOnlyFromSucceeded(files, tasks, order[..|order| - 1], p);
    }
  }

  /** A commit that ends without an exception has seen only successful downloads. */
  lemma {:induction false} CommitSuccessMeansFetched(files: map<Path, Content>, tasks: seq<Task>, order: seq<nat>)
    requires forall k :: 0 <= k < |order| ==> order[k] < |tasks|
    requires Commit(files, tasks, order).failure.None?
    ensures forall k :: 0 <= k < |order| ==> tasks[order[k]].fetch.Fetched?
    decreases |order|
  {
    if |order| > 0 {
      CommitSuccessMeansFetched(files, tasks, order[..|order| - 1]);
    }
  }

  /** No task's temp path is any task's final path. */
  predicate TempsApart(tasks: seq<Task>) {
    forall i, j :: 0 <= i < |tasks| && 0 <= j < |tasks| ==> tasks[i].temp != tasks[j].final
  }

  /**
   * When the temp paths are apart from the final paths, a commit that ends
   * without an exception leaves every committed task's final file in place.
   */
  lemma {:induction false} CommitPlacesFinals(files: map<Path, Content>, tasks: seq<Task>, order: seq<nat>)
    requires forall k :: 0 <= k < |order| ==> order[k] < |tasks|
    requires TempsApart(tasks)
    requires Commit(files, tasks, order).failure.None?
    ensures forall k :: 0 <= k < |order| ==> tasks[order[k]].final in Commit(files, tasks, order).files
    decreases |order|
  {
    if |order| > 0 {
      var init := order[..|order| - 1];
      CommitPlacesFinals(files, tasks, init);
      var t := tasks[order[|order| - 1]];
      forall k | 0 <= k < |order| ensures tasks[order[k]].final in Commit(files, tasks, order).files {
        if k < |init| {
          assert order[k] == init[k];
          assert tasks[order[k]].final != t.temp;
        }
      }
    }
  }

  /** Task paths that do not collide: temps distinct, finals distinct, and temps apart from finals. */
  predicate PathsApart(tasks: seq<Task>) {
    TempsApart(tasks)
    && (forall i, j :: 0 <= i < j < |tasks| ==> tasks[i].temp != tasks[j].temp)
    && (forall i, j :: 0 <= i < j < |tasks| ==> tasks[i].final != tasks[j].final)
  }

  /**
   * Part way through a nominal commit: the tasks in `done` have their final
   * file holding their download, the others still have their temp file.
   */
  predicate CommitReady(files: map<Path, Content>, tasks: seq<Task>, done: seq<nat>)
    requires forall k :: 0 <= k < |done| ==> done[k] < |tasks|
  {
    (forall k :: 0 <= k < |done| ==>
       tasks[done[k]].fetch.Fetched? && tasks[done[k]].final in files && files[tasks[done[k]].final] == Data(tasks[done[k]].fetch.body))
    && (forall k :: 0 <= k < |tasks| && k !in done ==>
          tasks[k].fetch.Fetched? && tasks[k].temp in files && files[tasks[k].temp] == Data(tasks[k].fetch.body))
  }

  /** Renaming one more finished task keeps the nominal commit on track. */
  lemma CommitReadyStep(files: map<Path, Content>, tasks: seq<Task>, done: seq<nat>, next: nat)
    requires forall k :: 0 <= k < |done| ==> done[k] < |tasks|
    requires next < |tasks| && next !in done && PathsApart(tasks)
    requires CommitReady(files, tasks, done)
    ensures tasks[next].temp in files
    ensures CommitReady(Rename(files, tasks[next].temp, tasks[next].final), tasks, done + [next])
  {
    var t := tasks[next];
    var r := Rename(files, t.temp, t.final);
    var done' := done + [next];
    forall k | 0 <= k < |done'|
      ensures tasks[done'[k]].fetch.Fetched? && tasks[done'[k]].final in r && r[tasks[done'[k]].final] == Data(tasks[done'[k]].fetch.body)
    {
      if k < |done| {
        assert done'[k] == done[k] && done[k] != next;
        assert tasks[done[k]].final != t.temp;
      }
    }
    forall k | 0 <= k < |tasks| && k !in done'
      ensures tasks[k].fetch.Fetched? && tasks[k].temp in r && r[tasks[k].temp] == Data(tasks[k].fetch.body)
    {
      assert k !in done && k != next;
    }
  }

  /** Dropping the last task number of a completion order leaves an order without it. */
  lemma CompletionOrderInit(order: seq<nat>, n: nat)
    requires IsCompletionOrder(order, n) && |order| > 0
    ensures IsCompletionOrder(order[..|order| - 1], n)
    ensures order[|order| - 1] !in order[..|order| - 1]
  {
    var init := order[..|order| - 1];
    forall i | 0 <= i < |init| ensures init[i] != order[|order| - 1] {
      assert init[i] == order[i];
    }
  }

  /**
   * The nominal run: when every download succeeded, every temp file is in
   * place and no two task paths collide, the loop ends without an exception
   * in any completion order, and each committed final file holds its download.
   */
  lemma {:induction false} CommitAllFetched(files: map<Path, Content>, tasks: seq<Task>, order: seq<nat>)
    requires IsCompletionOrder(order, |tasks|) && PathsApart(tasks)
    requires CommitReady(files, tasks, [])
    ensures Commit(files, tasks, order).failure.None?
    ensures CommitReady(Commit(files, tasks, order).files, tasks, order)
    decreases |order|
  {
    if |order| > 0 {
      var init, last := order[..|order| - 1], order[|order| - 1];
      CompletionOrderInit(order, |tasks|);
      CommitAllFetched(files, tasks, init);
      CommitReadyStep(Commit(files, tasks, init).files, tasks, init, last);
      assert init + [last] == order;
    }
  }

  /** A failed download in a full completion order always surfaces as an exception. */
  lemma {:induction false} CommitReportsFailure(files: map<Path, Content>, tasks: seq<Task>, order: seq<nat>, bad: nat)
    requires forall k :: 0 <= k < |order| ==> order[k] < |tasks|
    requires bad < |order| && tasks[order[bad]].fetch.FetchFailed?
    ensures Commit(files, tasks, order).failure.Some?
    decreases |order|
  {
    if bad < |order| - 1 {
      var init := order[..|order| - 1];
      assert init[bad] == order[bad];
      CommitReportsFailure(files, tasks, init, bad);
    }
  }
}
