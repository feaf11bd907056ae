/**
 * `KodikFastDownloader` as a class over an abstract file system: the files
 * it sees (a map from path to content), the directories, and logs of the
 * GETs, link look-ups and muxer runs it performs. The Kodik parser, the HTTP
 * client and ffmpeg are oracles passed in as functions.
 */
module KodikDownloader {
  import opened PyText
  import opened Paths
  import opened KodikSegments
  import opened KodikProtocol

  /** What an ffmpeg run does: writes the video, or fails, possibly leaving a partial file. */
  datatype MuxOutcome = MuxOk(video: Bytes) | MuxFail(partial: Option<Bytes>)

  /** ffmpeg, given its command line and the segment contents in `files.txt` order. */
  type Muxer = (string, seq<Content>) -> MuxOutcome

  /** `KodikParser.get_link(id, id_type, seria_num, translation_id)[0]`, or `None` when it raises. */
  type LinkResolver = (string, string, int, string) -> Option<string>

  /** `_get_url_data(url)`: the text at `url`, or `None` when the request raises. */
  type TextSource = string -> Option<string>

  /** What `fast_download` ends with: the saved path, `None`, or an exception. */
  datatype Outcome = Saved(path: Path) | NoSegments | Failed(failure: Failure)

  /** `Path(output_dir or tmp_dir, f"{output_name}.mp4")` */
  function OutputPath(workDir: string, outputDir: Option<string>, outputName: string): Path {
    Path(if outputDir.Some? then outputDir.value else workDir, outputName + ".mp4")
  }

  /** The files left once directory `w` and everything in it are removed. */
  function ClearedFiles(files: map<Path, Content>, w: string): map<Path, Content> {
    map p | p in files && !Within(p.dir, w) :: files[p]
  }

  /** The directories left once directory `w` and everything in it are removed. */
  function ClearedDirs(dirs: set<string>, w: string): set<string> {
    set d | d in dirs && !Within(d, w)
  }

  /** Removing a directory a second time changes nothing. */
  lemma ClearTwice(files: map<Path, Content>, dirs: set<string>, w: string)
    ensures ClearedFiles(ClearedFiles(files, w), w) == ClearedFiles(files, w)
    ensures ClearedDirs(ClearedDirs(dirs, w), w) == ClearedDirs(dirs, w)
  {
  }

  /** `Path(tmp_dir, f"{output_name}~.mp4")` */
  function TempOutputPath(workDir: string, outputName: string): Path {
    Path(workDir, outputName + "~.mp4")
  }

  /** `f'https:{link}{quality}.mp4:hls:manifest.m3u8'` */
  function ManifestUrl(link: string, quality: string): string {
    "https:" + link + quality + ".mp4:hls:manifest.m3u8"
  }

  /** The ffmpeg command line `_combine_segments` runs: concat demuxer on `files.txt`, `-hwaccel cuda`. */
  function MuxCommand(dir: string, output: Path, fps: Option<string>, withAudio: bool): string {
    FfmpegCommand(dir, output, OutputParams(fps, withAudio), Some("cuda"))
  }

  /** `directory / 'files.txt'` */
  function FilesTxtPath(dir: string): Path {
    Path(dir, "files.txt")
  }

  /** The names `_combine_segments` picks up: files directly in `dir` with suffix `.ts`. */
  function TsNames(files: map<Path, Content>, dir: string): set<string> {
    set p | p in files && p.dir == dir && IsSegmentFile(p.name) :: p.name
  }

  /** `names` is a listing of the `.ts` files of `dir`: each of them once. */
  ghost predicate IsListing(names: seq<string>, files: map<Path, Content>, dir: string) {
    && (forall i, j :: 0 <= i < j < |names| ==> names[i] != names[j])
    && (forall n :: n in names <==> n in TsNames(files, dir))
  }

  /** What ffmpeg reads: the content of each listed file, in order. */
  function MuxInputs(files: map<Path, Content>, dir: string, order: seq<string>): (r: seq<Content>)
    ensures |r| == |order|
  {
    seq(|order|, k requires 0 <= k < |order| =>
      if Path(dir, order[k]) in files then files[Path(dir, order[k])] else Data([]))
  }

  /** `d` is `root` or lies below it: what `shutil.rmtree(root)` removes. */
  predicate Within(d: string, root: string) {
    d == root || StartsWith(d, root + "/")
  }

  /** A file name that does not end with `4`, as no `.mp4` name does. */
  predicate NotMp4(name: string) {
    name == [] || name[|name| - 1] != '4'
  }

  lemma Mp4Name(stem: string)
    ensures !NotMp4(stem + ".mp4") && !NotMp4(stem + "~.mp4")
  {
    assert (stem + ".mp4")[|stem| + 3] == '4';
    assert (stem + "~.mp4")[|stem| + 4] == '4';
  }

  /** Segment file names, final or temp, never look like an `.mp4` name. */
  lemma SegmentNamesNotMp4(index: string)
    ensures NotMp4(SegmentFileName(index)) && NotMp4(TempSegmentFileName(index))
  {
    assert SegmentFileName(index)[|index| + 2] == 's';
    if index != [] {
      assert TempSegmentFileName(index)[|index| + 3] == 's';
    }
  }

  /** Every task works on segment paths inside `dir`, none of them an `.mp4` name. */
  predicate SegmentTasks(tasks: seq<Task>, dir: string) {
    forall k :: 0 <= k < |tasks| ==> NotMp4(tasks[k].temp.name) && NotMp4(tasks[k].final.name) && tasks[k].temp.dir == dir
  }

  /** The tasks that scheduling submits work on segment paths. */
  lemma {:induction false} ScheduledNamesNotMp4(files: map<Path, Content>, dirs: set<string>, dir: string, segs: seq<Segment>, net: Network)
    ensures SegmentTasks(Schedule(files, dirs, dir, segs, net).tasks, dir)
    decreases |segs|
  {
    if |segs| > 0 {
      var prev := Schedule(files, dirs, dir, segs[..|segs| - 1], net).tasks;
      ScheduledNamesNotMp4(files, dirs, dir, segs[..|segs| - 1], net);
      SegmentNamesNotMp4(segs[|segs| - 1].index);
      var tasks := Schedule(files, dirs, dir, segs, net).tasks;
      if tasks != prev {
        assert tasks == prev + [TaskFor(dir, segs[|segs| - 1], net)];
      }
    }
  }

  /** No temp path of any segment has an `.mp4` name. */
  lemma TempPathsNotMp4(dir: string, segs: seq<Segment>, p: Path)
    requires !NotMp4(p.name)
    ensures forall k :: 0 <= k < |segs| ==> p != TempPath(dir, segs[k])
  {
    forall k | 0 <= k < |segs| ensures p != TempPath(dir, segs[k]) {
      SegmentNamesNotMp4(segs[k].index);
    }
  }

  /** Scheduling leaves an `.mp4` path as it was. */
  lemma ScheduleKeepsMp4(files: map<Path, Content>, dirs: set<string>, dir: string, segs: seq<Segment>, net: Network, p: Path)
    requires !NotMp4(p.name)
    ensures var r := Schedule(files, dirs, dir, segs, net).files;
            (p in r <==> p in files) && (p in files ==> r[p] == files[p])
  {
    TempPathsNotMp4(dir, segs, p);
    ScheduleOnlyTemps(files, dirs, dir, segs, net, p);
  }

  /** The commit loop leaves an `.mp4` path as it was when no task names one. */
  lemma CommitKeepsMp4(files: map<Path, Content>, tasks: seq<Task>, dir: string, order: seq<nat>, p: Path)
    requires forall k :: 0 <= k < |order| ==> order[k] < |tasks|
    requires SegmentTasks(tasks, dir)
    requires !NotMp4(p.name)
    ensures var r := Commit(files, tasks, order).files;
            (p in r <==> p in files) && (p in files ==> r[p] == files[p])
  {
    CommitOnlyFromSucceeded(files, tasks, order, p);
  }

  /** The elements of `s`, each once, in an order the method chooses (as a directory listing does). */
  method Enumerate<T>(s: set<T>) returns (xs: seq<T>)
    ensures forall i, j :: 0 <= i < j < |xs| ==> xs[i] != xs[j]
    ensures forall x :: x in xs <==> x in s
  {
    var rest := s;
    xs := [];
    while rest != {}
      invariant forall i, j :: 0 <= i < j < |xs| ==> xs[i] != xs[j]
      invariant forall x :: x in s <==> x in xs || x in rest
      invariant forall x :: x in rest ==> x !in xs
      decreases |rest|
    {
      var x :| x in rest;
      xs := xs + [x];
      rest := rest - {x};
    }
  }

  /** Appending an unused task number to a completion order keeps it one. */
  lemma CompletionOrderSnoc(order: seq<nat>, n: nat, k: nat)
    requires IsCompletionOrder(order, n) && k < n && k !in order
    ensures IsCompletionOrder(order + [k], n)
  {
  }

  /** One more step of the commit loop. */
  lemma CommitSnoc(files: map<Path, Content>, tasks: seq<Task>, order: seq<nat>, k: nat)
    requires forall i :: 0 <= i < |order| ==> order[i] < |tasks|
    requires k < |tasks| && Commit(files, tasks, order).failure.None?
    ensures var prev := Commit(files, tasks, order).files;
            var t := tasks[k];
            Commit(files, tasks, order + [k]) ==
              if t.fetch.FetchFailed? then Committed(prev, Some(SegmentFailed))
              else if t.temp !in prev then Committed(prev, Some(TempSegmentMissing))
              else Committed(Rename(prev, t.temp, t.final), None)
  {
    assert (order + [k])[..|order|] == order;
  }

  /** The task numbers below `n`. */
  function Range(n: nat): (r: set<nat>)
    ensures |r| == n && forall k: nat :: k in r <==> k < n
  {
    if n == 0 then {}
    else
      var below := Range(n - 1);
      assert n - 1 !in below;
      below + {n - 1}
  }

  /** The files after an ffmpeg run into `output`. */
  function AfterMux(files: map<Path, Content>, output: Path, run: MuxOutcome): (r: map<Path, Content>)
    ensures run.MuxOk? ==> output in r && r[output] == Data(run.video)
  {
    match run
    case MuxOk(video) => files[output := Data(video)]
    case MuxFail(partial) => if partial.Some? then files[output := Data(partial.value)] else files
  }

  /** `_combine_segments` changes nothing but `files.txt` and its output, and the output exists when it succeeds. */
  lemma CombineFrame(files: map<Path, Content>, dir: string, output: Path, listing: seq<string>,
                     fps: Option<string>, withAudio: bool, mux: Muxer)
    ensures var c := Combine(files, dir, output, listing, fps, withAudio, mux);
            && (forall p :: p != FilesTxtPath(dir) && p != output ==>
                  (p in c.files <==> p in files) && (p in c.files ==> c.files[p] == files[p]))
            && (c.failure.None? ==> output in c.files)
  {
    match OrderSegmentFiles(listing)
    case None =>
    case Some(order) =>
      var run := mux(MuxCommand(dir, output, fps, withAudio), MuxInputs(files, dir, order));
      AfterMuxFrame(files[FilesTxtPath(dir) := Text(FilesTxt(order))], output, run);
  }

  /** An ffmpeg run changes nothing but its output. */
  lemma AfterMuxFrame(files: map<Path, Content>, output: Path, run: MuxOutcome)
    ensures forall p :: p != output ==>
              (p in AfterMux(files, output, run) <==> p in files) && (p in AfterMux(files, output, run) ==> AfterMux(files, output, run)[p] == files[p])
  {
  }

  /** The outcome of the lookup part of `fast_download`: the segments to fetch, or how it ended. */
  datatype Located = Found(segments: seq<Segment>) | Stopped(outcome: Outcome)

  /**
   * The look-up: no link, no manifest, a manifest without the expected
   * layout, and one without segments each end the download.
   */
  function Lookup(link: Option<string>, fetchText: TextSource, quality: string): (r: Located)
    ensures r.Found? ==> |r.segments| > 0
    ensures link.None? <==> r == Stopped(Failed(LinkUnavailable))
    ensures r.Stopped? ==> r.outcome == NoSegments || (r.outcome.Failed? && r.outcome.failure in {LinkUnavailable, ManifestUnavailable, MalformedManifest})
    ensures r == Stopped(NoSegments) <==> link.Some? && fetchText(ManifestUrl(link.value, quality)).Some?
                                          && ParseManifest(fetchText(ManifestUrl(link.value, quality)).value, "https:" + link.value) == Ok([])
    // the segments found are those the manifest at the link lists
    ensures r.Found? ==> link.Some? && fetchText(ManifestUrl(link.value, quality)).Some?
                         && ParseManifest(fetchText(ManifestUrl(link.value, quality)).value, "https:" + link.value) == Ok(r.segments)
    // a missing manifest and a malformed one each raise
    ensures r == Stopped(Failed(ManifestUnavailable)) <==> link.Some? && fetchText(ManifestUrl(link.value, quality)).None?
    ensures r == Stopped(Failed(MalformedManifest)) <==>
              (link.Some? && fetchText(ManifestUrl(link.value, quality)).Some?
               && ParseManifest(fetchText(ManifestUrl(link.value, quality)).value, "https:" + link.value).Err?)
  {
    if link.None? then Stopped(Failed(LinkUnavailable))
    else
      match fetchText(ManifestUrl(link.value, quality))
      case None => Stopped(Failed(ManifestUnavailable))
      case Some(text) =>
        match ParseManifest(text, "https:" + link.value)
        case Err(_) => Stopped(Failed(MalformedManifest))
        case Ok(segs) => if |segs| == 0 then Stopped(NoSegments) else Found(segs)
  }

  /** The GETs of the look-up: the manifest, once a link is known. */
  function LookupRequests(link: Option<string>, quality: string): (r: seq<string>)
    ensures |r| <= 1 && (|r| == 1 <==> link.Some?)
  {
    if link.None? then [] else [ManifestUrl(link.value, quality)]
  }

  /** The effect of `_combine_segments`: the files after it, the exception it raised, the ffmpeg runs. */
  datatype Combined = Combined(files: map<Path, Content>, failure: Option<Failure>, runs: seq<string>)

  /**
   * `_combine_segments` on the listing `listing`: a name whose stem is not an
   * integer raises before anything is written; otherwise `files.txt` is
   * written and ffmpeg runs once.
   */
  function Combine(files: map<Path, Content>, dir: string, output: Path, listing: seq<string>,
                   fps: Option<string>, withAudio: bool, mux: Muxer): (c: Combined)
    ensures OrderSegmentFiles(listing).None? <==> c.failure == Some(NonIntegerStem)
    ensures c.failure.Some? ==> c.failure.value == NonIntegerStem || c.failure.value == MuxerFailed
    ensures c.failure == Some(NonIntegerStem) ==> c.files == files && c.runs == []
    ensures c.failure != Some(NonIntegerStem) ==> c.runs == [MuxCommand(dir, output, fps, withAudio)]
    // on success the output holds the video ffmpeg produced from the segments in `int(stem)` order
    ensures c.failure.None? ==>
              && OrderSegmentFiles(listing).Some?
              && var run := mux(MuxCommand(dir, output, fps, withAudio), MuxInputs(files, dir, OrderSegmentFiles(listing).value));
              && run.MuxOk? && output in c.files && c.files[output] == Data(run.video)
  {
    match OrderSegmentFiles(listing)
    case None => Combined(files, Some(NonIntegerStem), [])
    case Some(order) =>
      var cmd := MuxCommand(dir, output, fps, withAudio);
      var run := mux(cmd, MuxInputs(files, dir, order));
      Combined(AfterMux(files[FilesTxtPath(dir) := Text(FilesTxt(order))], output, run),
               if run.MuxOk? then None else Some(MuxerFailed), [cmd])
  }

  class Downloader {
    /** `tmp_root` */
    const tmpRoot: string
    /** `segment_timeout`, passed to every segment GET */
    const segmentTimeout: nat
    /** `md5(...).hexdigest()`, left uninterpreted */
    const digest: string -> string

    var files: map<Path, Content>
    var dirs: set<string>
    /** Every GET issued, in order. */
    var requests: seq<string>
    /** How many times the Kodik parser was asked for a link. */
    var lookups: nat
    /** Every ffmpeg command line run, in order. */
    var muxRuns: seq<string>

    constructor(tmpRoot: string, segmentTimeout: nat, digest: string -> string, files: map<Path, Content>, dirs: set<string>)
      ensures this.tmpRoot == tmpRoot && this.segmentTimeout == segmentTimeout && this.digest == digest
      ensures this.files == files && this.dirs == dirs
      ensures requests == [] && lookups == 0 && muxRuns == []
    {
      this.tmpRoot := tmpRoot;
      this.segmentTimeout := segmentTimeout;
      this.digest := digest;
      this.files := files;
      this.dirs := dirs;
      requests := [];
      lookups := 0;
      muxRuns := [];
    }

    /** `Path(tmp_root, f"{_translation_hash(...)}~")`: it depends on these five values only. */
    function WorkDir(id: string, idType: string, seriaNum: int, translationId: string, quality: string): string {
      tmpRoot + "/" + digest(HashInput(id, idType, seriaNum, translationId, quality)) + "~"
    }

    /** `_download_segment(url, path)`: one GET, one more after an SSL error, then the body is written. */
    method DownloadSegment(url: string, path: Path, net: Network) returns (f: Fetch)
      modifies this
      ensures f == FetchWithRetry(net, url)
      ensures files == if f.Fetched? then old(files)[path := Data(f.body)] else old(files)
      ensures requests == old(requests) + Attempts(net, url)
      ensures dirs == old(dirs) && lookups == old(lookups) && muxRuns == old(muxRuns)
    {
      requests := requests + [url];
      var res := net(url, 0);
      if res.SslError? {
        requests := requests + [url];
        res := net(url, 1);
      }
      if res.Response? {
        files := files[path := Data(res.body)];
        f := Fetched(res.body);
      } else {
        f := FetchFailed;
      }
    }

    /** The `for i in range(thr)` loop: skip finished segments, download the others to temp files. */
    method ScheduleSegments(dir: string, segs: seq<Segment>, net: Network) returns (tasks: seq<Task>)
      modifies this
      ensures files == Schedule(old(files), dirs, dir, segs, net).files
      ensures tasks == Schedule(old(files), dirs, dir, segs, net).tasks
      ensures requests == old(requests) + Schedule(old(files), dirs, dir, segs, net).requests
      ensures dirs == old(dirs) && lookups == old(lookups) && muxRuns == old(muxRuns)
    {
      tasks := [];
      var i := 0;
      while i < |segs|
        invariant 0 <= i <= |segs|
        invariant files == Schedule(old(files), dirs, dir, segs[..i], net).files
        invariant tasks == Schedule(old(files), dirs, dir, segs[..i], net).tasks
        invariant requests == old(requests) + Schedule(old(files), dirs, dir, segs[..i], net).requests
        invariant dirs == old(dirs) && lookups == old(lookups) && muxRuns == old(muxRuns)
      {
        var s := segs[i];
        ghost var prev := Schedule(old(files), dirs, dir, segs[..i], net);
        assert segs[..i + 1][..i] == segs[..i];
        var fin := Path(dir, SegmentFileName(s.index));
        if !(fin in files || PathString(fin) in dirs) {
          var tmp := Path(dir, TempSegmentFileName(s.index));
          files := files - {tmp};
          var f := DownloadSegment(s.url, tmp, net);
          tasks := tasks + [Task(tmp, fin, f)];
          assert requests == old(requests) + (prev.requests + Attempts(net, s.url));
        }
        i := i + 1;
      }
      assert segs[..i] == segs;
    }

    /**
     * The `as_completed` loop: tasks are taken in an arbitrary completion
     * order; a download that raised ends the loop, a finished one has its temp
     * file renamed to its final name.
     */
    method CommitTasks(tasks: seq<Task>) returns (failure: Option<Failure>, order: seq<nat>)
      modifies this
      ensures IsCompletionOrder(order, |tasks|)
      ensures failure.None? ==> |order| == |tasks|
      ensures failure == None || failure == Some(SegmentFailed) || failure == Some(TempSegmentMissing)
      ensures Commit(old(files), tasks, order) == Committed(files, failure)
      ensures dirs == old(dirs) && requests == old(requests) && lookups == old(lookups) && muxRuns == old(muxRuns)
    {
      var pending := Range(|tasks|);
      order := [];
      while pending != {}
        invariant IsCompletionOrder(order, |tasks|)
        invariant forall k: nat :: k in pending <==> k < |tasks| && k !in order
        invariant |pending| + |order| == |tasks|
        invariant Commit(old(files), tasks, order) == Committed(files, None)
        invariant dirs == old(dirs) && requests == old(requests) && lookups == old(lookups) && muxRuns == old(muxRuns)
        decreases |pending|
      {
        var k: nat :| k in pending;
        CompletionOrderSnoc(order, |tasks|, k);
        CommitSnoc(old(files), tasks, order, k);
        order := order + [k];
        pending := pending - {k};
        var t := tasks[k];
        if t.fetch.FetchFailed? {
          return Some(SegmentFailed), order;
        }
        if t.temp !in files {
          return Some(TempSegmentMissing), order;
        }
        files := Rename(files, t.temp, t.final);
      }
      return None, order;
    }

    /** `directory.iterdir()` filtered to `.ts`: every such name once, in no particular order. */
    method ListSegmentFiles(dir: string) returns (names: seq<string>)
      ensures IsListing(names, files, dir)
    {
      names := Enumerate(TsNames(files, dir));
    }

    /**
     * `_combine_segments(dir, output, fps, with_audio)`: order the `.ts`
     * files by `int(stem)`, write `files.txt`, run ffmpeg with
     * `-hwaccel cuda` into `output`. The listing order is the directory's.
     */
    method CombineSegments(dir: string, output: Path, fps: Option<string>, withAudio: bool, mux: Muxer)
      returns (failure: Option<Failure>, listing: seq<string>)
      modifies this
      ensures IsListing(listing, old(files), dir)
      ensures var c := Combine(old(files), dir, output, listing, fps, withAudio, mux);
              files == c.files && failure == c.failure && muxRuns == old(muxRuns) + c.runs
      ensures dirs == old(dirs) && requests == old(requests) && lookups == old(lookups)
    {
      listing := ListSegmentFiles(dir);
      failure := MuxListing(dir, output, listing, fps, withAudio, mux);
    }

    /** `_combine_segments` once the directory is listed: sort, write `files.txt`, run ffmpeg. */
    method MuxListing(dir: string, output: Path, listing: seq<string>, fps: Option<string>, withAudio: bool, mux: Muxer)
      returns (failure: Option<Failure>)
      modifies this
      ensures var c := Combine(old(files), dir, output, listing, fps, withAudio, mux);
              files == c.files && failure == c.failure && muxRuns == old(muxRuns) + c.runs
      ensures dirs == old(dirs) && requests == old(requests) && lookups == old(lookups)
    {
      var before := files;
      var sorted := OrderSegmentFiles(listing);
      if sorted.None? {
        return Some(NonIntegerStem);
      }
      var order := sorted.value;
      var text := BuildFilesTxt(order);
      var cmd := MuxCommand(dir, output, fps, withAudio);
      muxRuns := muxRuns + [cmd];
      var run := mux(cmd, MuxInputs(before, dir, order));
      files := AfterMux(files[FilesTxtPath(dir) := Text(text)], output, run);
      failure := if run.MuxOk? then None else Some(MuxerFailed);
    }

    /**
     * The look-up part of `fast_download`: the player link, the manifest at
     * `https:{link}{quality}.mp4:hls:manifest.m3u8`, its segments.
     */
    method Locate(id: string, idType: string, seriaNum: int, translationId: string, quality: string,
                  resolve: LinkResolver, fetchText: TextSource) returns (r: Located)
      modifies this
      ensures r == Lookup(resolve(id, idType, seriaNum, translationId), fetchText, quality)
      ensures requests == old(requests) + LookupRequests(resolve(id, idType, seriaNum, translationId), quality)
      ensures lookups == old(lookups) + 1
      ensures files == old(files) && dirs == old(dirs) && muxRuns == old(muxRuns)
    {
      lookups := lookups + 1;
      var link := resolve(id, idType, seriaNum, translationId);
      if link.None? {
        return Stopped(Failed(LinkUnavailable));
      }
      var url := ManifestUrl(link.value, quality);
      requests := requests + [url];
      var manifest := fetchText(url);
      if manifest.None? {
        return Stopped(Failed(ManifestUnavailable));
      }
      var parsed := GetSegments(manifest.value, "https:" + link.value);
      if parsed.Err? {
        return Stopped(Failed(MalformedManifest));
      }
      if |parsed.segments| == 0 {
        return Stopped(NoSegments);
      }
      return Found(parsed.segments);
    }

    /**
     * The segment part of `fast_download`: schedule the missing segments and
     * rename them as they finish. An `.mp4` path is left as it was.
     * `tasks` and `order` are the scheduled downloads and the order they completed in.
     */
    method FetchSegments(w: string, segs: seq<Segment>, net: Network, keep: Path)
      returns (failure: Option<Failure>, ghost tasks: seq<Task>, ghost order: seq<nat>)
      requires !NotMp4(keep.name)
      modifies this
      ensures tasks == Schedule(old(files), dirs, w, segs, net).tasks
      ensures IsCompletionOrder(order, |tasks|) && (failure.None? ==> |order| == |tasks|)
      ensures Commit(Schedule(old(files), dirs, w, segs, net).files, tasks, order) == Committed(files, failure)
      ensures (keep in files <==> keep in old(files)) && (keep in old(files) ==> files[keep] == old(files)[keep])
      ensures failure == None || failure == Some(SegmentFailed) || failure == Some(TempSegmentMissing)
      ensures requests == old(requests) + Schedule(old(files), dirs, w, segs, net).requests
      ensures dirs == old(dirs) && lookups == old(lookups) && muxRuns == old(muxRuns)
    {
      ghost var start := files;
      var scheduledTasks := ScheduleSegments(w, segs, net);
      ScheduleKeepsMp4(start, dirs, w, segs, net, keep);
      ScheduledNamesNotMp4(start, dirs, w, segs, net);
      ghost var scheduled := files;
      var completed;
      failure, completed := CommitTasks(scheduledTasks);
      CommitKeepsMp4(scheduled, scheduledTasks, w, completed, keep);
      tasks, order := scheduledTasks, completed;
    }

    /**
     * The muxing part of `fast_download`: mux the segments into
     * `{output_name}~.mp4`, then rename that to the output path; on an
     * exception the temporary output is deleted. `listing` is the order the
     * directory listed its `.ts` files in.
     */
    method Finish(w: string, outputName: string, out: Path, fps: Option<string>, withAudio: bool, mux: Muxer)
      returns (r: Outcome, ghost listing: seq<string>)
      requires out.name == outputName + ".mp4"
      modifies this
      ensures var tmp := TempOutputPath(w, outputName);
              var m := Combine(old(files) - {tmp}, w, tmp, listing, fps, withAudio, mux);
              && IsListing(listing, old(files) - {tmp}, w)
              && muxRuns == old(muxRuns) + m.runs
              && (m.failure.Some? ==> r == Failed(m.failure.value) && files == m.files - {tmp} && dirs == old(dirs))
              && (m.failure.None? ==> tmp in m.files && r == Saved(out) && files == Rename(m.files, tmp, out)
                                      && files[out] == m.files[tmp] && dirs == old(dirs) + {out.dir})
      ensures r == Saved(out) || r == Failed(NonIntegerStem) || r == Failed(MuxerFailed)
      ensures r.Failed? ==> (out in files <==> out in old(files)) && (out in old(files) ==> files[out] == old(files)[out])
      ensures TempOutputPath(w, outputName) !in files
      ensures requests == old(requests) && lookups == old(lookups)
    {
      Mp4Name(outputName);
      var tmpOut := TempOutputPath(w, outputName);
      assert |tmpOut.name| != |out.name|;
      assert out != FilesTxtPath(w);
      files := files - {tmpOut};
      ghost var cleared := files;
      var combined, names := CombineSegments(w, tmpOut, fps, withAudio, mux);
      listing := names;
      CombineFrame(cleared, w, tmpOut, listing, fps, withAudio, mux);
      if combined.Some? {
        files := files - {tmpOut};
        return Failed(combined.value), listing;
      }
      dirs := dirs + {out.dir};
      files := Rename(files, tmpOut, out);
      return Saved(out), listing;
    }

    /**
     * `fast_download` once the segments are known: fetch them into the
     * working directory `w`, then mux them into `out`.
     */
    method Build(w: string, segs: seq<Segment>, outputName: string, out: Path, fps: Option<string>, withAudio: bool,
                 net: Network, mux: Muxer)
      returns (r: Outcome, ghost tasks: seq<Task>, ghost order: seq<nat>, ghost listing: seq<string>)
      requires out.name == outputName + ".mp4"
      modifies this
      ensures tasks == Schedule(old(files), old(dirs), w, segs, net).tasks && IsCompletionOrder(order, |tasks|)
      ensures var c := Commit(Schedule(old(files), old(dirs), w, segs, net).files, tasks, order);
              && (c.failure.Some? ==> r == Failed(c.failure.value) && files == c.files && muxRuns == old(muxRuns)
                                      && dirs == old(dirs))
              && (c.failure.None? ==> |order| == |tasks|)
      ensures var tmp := TempOutputPath(w, outputName);
              var c := Commit(Schedule(old(files), old(dirs), w, segs, net).files, tasks, order);
              var m := Combine(c.files - {tmp}, w, tmp, listing, fps, withAudio, mux);
              c.failure.None? ==>
                && IsListing(listing, c.files - {tmp}, w)
                && muxRuns == old(muxRuns) + m.runs
                && (m.failure.Some? ==> r == Failed(m.failure.value) && files == m.files - {tmp} && dirs == old(dirs))
                && (m.failure.None? ==> tmp in m.files && r == Saved(out) && files == Rename(m.files, tmp, out)
                                        && files[out] == m.files[tmp] && dirs == old(dirs) + {out.dir})
      ensures r == Saved(out) || r.Failed?
      ensures r.Failed? ==> (out in files <==> out in old(files)) && (out in old(files) ==> files[out] == old(files)[out])
      ensures r.Failed? && r.failure in {NonIntegerStem, MuxerFailed} ==> TempOutputPath(w, outputName) !in files
      ensures r.Saved? ==> out in files && TempOutputPath(w, outputName) !in files && |muxRuns| == |old(muxRuns)| + 1
      ensures |muxRuns| <= |old(muxRuns)| + 1
      ensures requests == old(requests) + Schedule(old(files), old(dirs), w, segs, net).requests && lookups == old(lookups)
    {
      Mp4Name(outputName);
      var failure;
      failure, tasks, order := FetchSegments(w, segs, net, out);
      if failure.Some? {
        return Failed(failure.value), tasks, order, [];
      }
      r, listing := Finish(w, outputName, out, fps, withAudio, mux);
    }

    /**
     * `fast_download` once no finished output was found: look the segments
     * up, then fetch and mux them.
     */
    method Produce(id: string, idType: string, seriaNum: int, translationId: string, quality: string,
                   w: string, outputName: string, out: Path, fps: Option<string>, withAudio: bool,
                   resolve: LinkResolver, fetchText: TextSource, net: Network, mux: Muxer)
      returns (r: Outcome, ghost tasks: seq<Task>, ghost order: seq<nat>, ghost listing: seq<string>)
      requires out.name == outputName + ".mp4"
      modifies this
      ensures lookups == old(lookups) + 1
      ensures var found := Lookup(resolve(id, idType, seriaNum, translationId), fetchText, quality);
              found.Stopped? ==> r == found.outcome && files == old(files) && dirs == old(dirs) && muxRuns == old(muxRuns)
      ensures var found := Lookup(resolve(id, idType, seriaNum, translationId), fetchText, quality);
              found.Found? ==>
                && tasks == Schedule(old(files), old(dirs), w, found.segments, net).tasks
                && IsCompletionOrder(order, |tasks|)
      ensures var found := Lookup(resolve(id, idType, seriaNum, translationId), fetchText, quality);
              found.Found? ==>
                var c := Commit(Schedule(old(files), old(dirs), w, found.segments, net).files, tasks, order);
                && (c.failure.Some? ==> r == Failed(c.failure.value) && files == c.files && muxRuns == old(muxRuns)
                                        && dirs == old(dirs))
                && (c.failure.None? ==> |order| == |tasks|)
      ensures var tmp := TempOutputPath(w, outputName);
              var found := Lookup(resolve(id, idType, seriaNum, translationId), fetchText, quality);
              found.Found? ==>
                var c := Commit(Schedule(old(files), old(dirs), w, found.segments, net).files, tasks, order);
                var m := Combine(c.files - {tmp}, w, tmp, listing, fps, withAudio, mux);
                c.failure.None? ==>
                  && IsListing(listing, c.files - {tmp}, w)
                  && muxRuns == old(muxRuns) + m.runs
                  && (m.failure.Some? ==> r == Failed(m.failure.value) && files == m.files - {tmp} && dirs == old(dirs))
                  && (m.failure.None? ==> tmp in m.files && r == Saved(out) && files == Rename(m.files, tmp, out)
                                          && files[out] == m.files[tmp] && dirs == old(dirs) + {out.dir})
      ensures r == NoSegments ==> files == old(files) && muxRuns == old(muxRuns)
      ensures r.Failed? ==> (out in files <==> out in old(files)) && (out in old(files) ==> files[out] == old(files)[out])
      ensures r.Failed? && r.failure in {NonIntegerStem, MuxerFailed} ==> TempOutputPath(w, outputName) !in files
      ensures r.Saved? ==> r == Saved(out) && out in files
      ensures r.Saved? && |muxRuns| > |old(muxRuns)| ==> TempOutputPath(w, outputName) !in files
      ensures old(dirs) <= dirs <= old(dirs) + {out.dir}
      ensures |muxRuns| <= |old(muxRuns)| + 1
    {
      var located := Locate(id, idType, seriaNum, translationId, quality, resolve, fetchText);
      if located.Stopped? {
        return located.outcome, [], [], [];
      }
      r, tasks, order, listing := Build(w, located.segments, outputName, out, fps, withAudio, net, mux);
    }

    /**
     * `fast_download`: find or build the video of one episode in one
     * translation and quality, reusing the segments already on disk.
     * `ffmpegAvailable` is the outcome of `check_ffmpeg`. `tasks`, `order`
     * and `listing` are the choices the thread pool and the directory made.
     */
    method FastDownload(id: string, idType: string, seriaNum: int, translationId: string, quality: string,
                        outputDir: Option<string>, outputName: string, fps: Option<string>, withAudio: bool,
                        ffmpegAvailable: bool, resolve: LinkResolver, fetchText: TextSource, net: Network, mux: Muxer)
      returns (r: Outcome, ghost tasks: seq<Task>, ghost order: seq<nat>, ghost listing: seq<string>)
      modifies this
      // without ffmpeg nothing happens at all
      ensures !ffmpegAvailable ==> r == Failed(FfmpegMissing) && files == old(files) && dirs == old(dirs)
                                   && requests == old(requests) && lookups == old(lookups) && muxRuns == old(muxRuns)
      // the working directory is created first, and only output directories besides it
      ensures var w := WorkDir(id, idType, seriaNum, translationId, quality);
              var out := OutputPath(w, outputDir, outputName);
              ffmpegAvailable ==> old(dirs) + {tmpRoot, w} <= dirs <= old(dirs) + {tmpRoot, w, out.dir}
      // a finished output short-circuits everything
      ensures var w := WorkDir(id, idType, seriaNum, translationId, quality);
              var out := OutputPath(w, outputDir, outputName);
              ffmpegAvailable && Exists(old(files), old(dirs) + {tmpRoot, w}, out) ==>
                r == Saved(out) && files == old(files) && requests == old(requests)
                && lookups == old(lookups) && muxRuns == old(muxRuns)
      // otherwise the look-up runs once; when it stops, its outcome is the result and nothing is written
      ensures var w := WorkDir(id, idType, seriaNum, translationId, quality);
              var out := OutputPath(w, outputDir, outputName);
              var found := Lookup(resolve(id, idType, seriaNum, translationId), fetchText, quality);
              ffmpegAvailable && !Exists(old(files), old(dirs) + {tmpRoot, w}, out) ==>
                && lookups == old(lookups) + 1
                && (found.Stopped? ==> r == found.outcome && files == old(files) && muxRuns == old(muxRuns))
      // the segments found are downloaded and renamed as `Schedule` and `Commit` say
      ensures var w := WorkDir(id, idType, seriaNum, translationId, quality);
              var out := OutputPath(w, outputDir, outputName);
              var found := Lookup(resolve(id, idType, seriaNum, translationId), fetchText, quality);
              ffmpegAvailable && !Exists(old(files), old(dirs) + {tmpRoot, w}, out) && found.Found? ==>
                && tasks == Schedule(old(files), old(dirs) + {tmpRoot, w}, w, found.segments, net).tasks
                && IsCompletionOrder(order, |tasks|)
      ensures var w := WorkDir(id, idType, seriaNum, translationId, quality);
              var out := OutputPath(w, outputDir, outputName);
              var found := Lookup(resolve(id, idType, seriaNum, translationId), fetchText, quality);
              ffmpegAvailable && !Exists(old(files), old(dirs) + {tmpRoot, w}, out) && found.Found? ==>
                var c := Commit(Schedule(old(files), old(dirs) + {tmpRoot, w}, w, found.segments, net).files, tasks, order);
                && (c.failure.Some? ==> r == Failed(c.failure.value) && files == c.files && muxRuns == old(muxRuns))
                && (c.failure.None? ==> |order| == |tasks|)
      // once every segment is in place they are muxed as `Combine` says and the output renamed into place
      ensures var w := WorkDir(id, idType, seriaNum, translationId, quality);
              var out := OutputPath(w, outputDir, outputName);
              var tmp := TempOutputPath(w, outputName);
              var found := Lookup(resolve(id, idType, seriaNum, translationId), fetchText, quality);
              ffmpegAvailable && !Exists(old(files), old(dirs) + {tmpRoot, w}, out) && found.Found? ==>
                var c := Commit(Schedule(old(files), old(dirs) + {tmpRoot, w}, w, found.segments, net).files, tasks, order);
                var m := Combine(c.files - {tmp}, w, tmp, listing, fps, withAudio, mux);
                c.failure.None? ==>
                  && IsListing(listing, c.files - {tmp}, w)
                  && muxRuns == old(muxRuns) + m.runs
                  && (m.failure.Some? ==> r == Failed(m.failure.value) && files == m.files - {tmp})
                  && (m.failure.None? ==> tmp in m.files && r == Saved(out) && files == Rename(m.files, tmp, out)
                                          && files[out] == m.files[tmp])
      // a manifest without segments gives `None` and no download or muxing
      ensures r == NoSegments ==> files == old(files) && muxRuns == old(muxRuns)
      // on an exception the output path is untouched and no temp output is left behind by the muxer
      ensures var w := WorkDir(id, idType, seriaNum, translationId, quality);
              var out := OutputPath(w, outputDir, outputName);
              r.Failed? ==> (out in files <==> out in old(files)) && (out in old(files) ==> files[out] == old(files)[out])
      ensures var w := WorkDir(id, idType, seriaNum, translationId, quality);
              r.Failed? && r.failure in {NonIntegerStem, MuxerFailed} ==> TempOutputPath(w, outputName) !in files
      // on success the returned path is the output path and it exists
      ensures var w := WorkDir(id, idType, seriaNum, translationId, quality);
              var out := OutputPath(w, outputDir, outputName);
              r.Saved? ==> r.path == out && Exists(files, dirs, out)
      ensures var w := WorkDir(id, idType, seriaNum, translationId, quality);
              r.Saved? && |muxRuns| > |old(muxRuns)| ==> TempOutputPath(w, outputName) !in files
      ensures |muxRuns| <= |old(muxRuns)| + 1 && lookups <= old(lookups) + 1
      // the outcome and the files and directories left are those `Gives` determines
      ensures Gives(old(files), old(dirs), id, idType, seriaNum, translationId, quality, outputDir, outputName, fps,
                    withAudio, ffmpegAvailable, resolve, fetchText, net, mux, tasks, order, listing, r, files, dirs)
    {
      if !ffmpegAvailable {
        return Failed(FfmpegMissing), [], [], [];
      }
      var w := WorkDir(id, idType, seriaNum, translationId, quality);
      dirs := dirs + {tmpRoot, w};
      var out := OutputPath(w, outputDir, outputName);
      if out in files || PathString(out) in dirs {
        return Saved(out), [], [], [];
      }
      Mp4Name(outputName);
      r, tasks, order, listing := Produce(id, idType, seriaNum, translationId, quality, w, outputName, out,
                                          fps, withAudio, resolve, fetchText, net, mux);
    }

    /**
     * What one `fast_download` call returns, and the files and directories it
     * leaves, from those it started with: `tasks`, `order` and `listing` are
     * the segment tasks, the order the thread pool finished them in and the
     * order the working directory was listed in.
     */
    ghost predicate Gives(files0: map<Path, Content>, dirs0: set<string>, id: string, idType: string, seriaNum: int,
                          translationId: string, quality: string, outputDir: Option<string>, outputName: string,
                          fps: Option<string>, withAudio: bool, ffmpegAvailable: bool, resolve: LinkResolver,
                          fetchText: TextSource, net: Network, mux: Muxer, tasks: seq<Task>, order: seq<nat>,
                          listing: seq<string>, r: Outcome, files1: map<Path, Content>, dirs1: set<string>)
    {
      var w := WorkDir(id, idType, seriaNum, translationId, quality);
      var out := OutputPath(w, outputDir, outputName);
      var tmp := TempOutputPath(w, outputName);
      var found := Lookup(resolve(id, idType, seriaNum, translationId), fetchText, quality);
      if !ffmpegAvailable then r == Failed(FfmpegMissing) && files1 == files0 && dirs1 == dirs0
      else if Exists(files0, dirs0 + {tmpRoot, w}, out) then
        r == Saved(out) && files1 == files0 && dirs1 == dirs0 + {tmpRoot, w}
      else if found.Stopped? then r == found.outcome && files1 == files0 && dirs1 == dirs0 + {tmpRoot, w}
      else
        var s := Schedule(files0, dirs0 + {tmpRoot, w}, w, found.segments, net);
        && tasks == s.tasks && IsCompletionOrder(order, |tasks|)
        && var c := Commit(s.files, tasks, order);
           if c.failure.Some? then r == Failed(c.failure.value) && files1 == c.files && dirs1 == dirs0 + {tmpRoot, w}
           else
             var m := Combine(c.files - {tmp}, w, tmp, listing, fps, withAudio, mux);
             && |order| == |tasks| && IsListing(listing, c.files - {tmp}, w)
             && if m.failure.Some? then
                  r == Failed(m.failure.value) && files1 == m.files - {tmp} && dirs1 == dirs0 + {tmpRoot, w}
                else
                  && tmp in m.files && r == Saved(out) && files1 == Rename(m.files, tmp, out)
                  && dirs1 == dirs0 + {tmpRoot, w, out.dir}
    }

    /** `clear_title_cache`: `shutil.rmtree` of the working directory, ignoring a missing one. */
    method ClearTitleCache(id: string, idType: string, seriaNum: int, translationId: string, quality: string)
      modifies this
      ensures var w := WorkDir(id, idType, seriaNum, translationId, quality);
              dirs == ClearedDirs(old(dirs), w) && files == ClearedFiles(old(files), w)
      // the working directory and everything in it are gone
      ensures var w := WorkDir(id, idType, seriaNum, translationId, quality);
              w !in dirs && forall p :: p in files ==> !Within(p.dir, w)
      // nothing outside it changes, so clearing an absent directory is a no-op
      ensures var w := WorkDir(id, idType, seriaNum, translationId, quality);
              forall p :: p in old(files) && !Within(p.dir, w) ==> p in files && files[p] == old(files)[p]
      ensures var w := WorkDir(id, idType, seriaNum, translationId, quality);
              (forall d :: d in old(dirs) ==> !Within(d, w)) && (forall p :: p in old(files) ==> !Within(p.dir, w)) ==>
                dirs == old(dirs) && files == old(files)
      ensures requests == old(requests) && lookups == old(lookups) && muxRuns == old(muxRuns)
    {
      var w := WorkDir(id, idType, seriaNum, translationId, quality);
      dirs := ClearedDirs(dirs, w);
      files := ClearedFiles(files, w);
    }
  }
}
