# Anime dataset creator: Kodik downloader and record pipeline, in Dafny

This project models the deterministic core of an anime dataset builder. The builder has four parts:

- It reads title records from Shikimori and keeps the first seasons.
- It adds the English synopsis from MyAnimeList.
- It downloads the first episode of a dubbed translation from Kodik. Segments are downloaded in parallel into a cache directory, and ffmpeg joins them.
- It stores every title as a JSON record.

The model has eight modules:

- `PyText` (`py_text.dfy`): the Python `str` operations the source relies on, such as `split`, `strip`, `rpartition`, `int()`, `re.sub` with a character class and `startswith`.
- `Paths` (`paths.dfy`): `pathlib` name rules (`suffix`, `stem`, `with_stem`) and a path as a directory plus a name.
- `KodikSegments` (`kodik_segments.dfy`): the pure parts of `core/kodik_fast_downloader.py`. These are the manifest parser, the cache-key input, the segment and temp file names, the numeric ordering of segment files, the `files.txt` text and the ffmpeg flag list.
- `KodikProtocol` (`kodik_protocol.dfy`): the file-commit protocol of `fast_download` as functions over an abstract file system.
  - `Fetch` covers the single SSL retry.
  - `Schedule` is the scheduling pass that skips finished segments and downloads the others to `{idx}~.ts`.
  - `Commit` is the pass that renames a temp file only after its download succeeded, in any completion order.
- `KodikDownloader` (`kodik_downloader.dfy`): the class `Downloader`. It holds the file system (`files`, `dirs`) and logs of GETs, link look-ups and ffmpeg runs. Its methods `DownloadSegment`, `ScheduleSegments`, `CommitTasks`, `CombineSegments`, `FastDownload` and `ClearTitleCache` change that state step by step, and each is proved against the functions of `KodikProtocol`.
- `AnimeModel` (`anime_model.dfy`): the `AnimeData` record, the related-title records, the `%Y-%m-%d %H:%M:%S` date text, and `to_json`/`from_json` with their round trip.
- `AnimeFilters` (`anime_filters.dfy`): `FirstSeasonAnimeFilter`.
- `AnimeParsing` (`anime_parsing.dfy`): `tools/anime_data_parsing.py`. It covers:
  - the parsing of a Shikimori record
  - the MyAnimeList synopsis trim
  - the dubbed-translation fallback loop around `fast_download`
  - the batch rules of `main`: de-duplication, the filter chain, the safe file name, the video path, the relative stored path and the stop rule

  Every `fast_download` call of the fallback loop is tied to `Downloader.FastDownload` through the relation `Downloader.Gives`, from the state the previous call left. The batch and page loops keep one `TitleRun` per title: its result, its calls and the states before and after it. Each run satisfies the whole contract of `ExpandTitle`, and the runs are chained, each starting from the state the one before it left.

The outside world is passed in as parameters:

- The network is a function from a URL and an attempt number to a response, an SSL error or another error.
- The Kodik link resolver and the manifest fetch are functions that may return nothing.
- ffmpeg is a function from a command and its input segments to a video or a failure.
- md5 is the `digest` field of the downloader and is never inverted.
- The thread pool's completion order is an arbitrary order of task numbers, chosen by the commit loop.
- MyAnimeList's answer is an optional synopsis. The Kodik translation list is a sequence. The downloader state of each attempt comes from a `World` value.

## Model

| member | source | states |
|---|---|---|
| KodikSegments.SegmentsOfMeaning | src_dataset_creator/core/kodik_fast_downloader.py:95-97 | The parse of the kept lines succeeds iff every line has a `-`. It then gives one segment per line, in order. |
| KodikSegments.ParseManifest | src_dataset_creator/core/kodik_fast_downloader.py:92-98 | `_get_segments`'s parse of the manifest: `SegmentsOfMeaning`, `SegmentFields` and `OddLinesIgnored` characterise it, and `GetSegments` is proved to compute it. |
| KodikSegments.GetSegments | src_dataset_creator/core/kodik_fast_downloader.py:92-98 | The loop (drop 7 header lines, visit even offsets, skip blank lines, append the pair) computes exactly the manifest parse. |
| KodikSegments.SegmentFields | src_dataset_creator/core/kodik_fast_downloader.py:97 | Segment k is built from kept line k. Its URL is `link + line[2:]`, and its index is exactly the second `-`-separated field of that line, which contains no `-`. |
| KodikSegments.OddLinesIgnored | src_dataset_creator/core/kodik_fast_downloader.py:94-95 | Two manifests that agree on the even body lines after the 7-line header parse the same: odd lines are never read. |
| KodikSegments.HeaderOnlyManifest | src_dataset_creator/core/kodik_fast_downloader.py:94-98 | For any link, a manifest with nothing after the 7 header lines but one blank line gives no segments, and that is not an error. |
| KodikSegments.HashInputCollides | src_dataset_creator/core/kodik_fast_downloader.py:157 | The plain concatenation of the hash input is not injective: translation 61 of episode 1 and translation 6 of episode 11 share a cache key. |
| KodikSegments.HashInput | src_dataset_creator/core/kodik_fast_downloader.py:157 | The string hashed for the working directory: `HashInputCollides` shows two episodes that share it, and `HashInputEndsWithQuality` that qualities of equal length differ. |
| KodikSegments.HashInputEndsWithQuality | src_dataset_creator/core/kodik_fast_downloader.py:157 | Two qualities of the same length give different hash inputs. |
| KodikSegments.TempNameFollowsWithStem | src_dataset_creator/core/kodik_fast_downloader.py:220 | The temp name `{idx}~.ts` is what `with_stem(stem + "~")` makes of `{idx}.ts`. |
| KodikSegments.TempNeverFinal | src_dataset_creator/core/kodik_fast_downloader.py:215-220 | A temp name is never the final name of an index that does not end with `~`. |
| KodikSegments.SegmentFileSelected | src_dataset_creator/core/kodik_fast_downloader.py:119 | `{idx}.ts` passes the `.ts` suffix filter iff the index is non-empty, and its stem is then the index. |
| KodikSegments.InsertBy | src_dataset_creator/core/kodik_fast_downloader.py:121 | Inserting into a sorted list keeps it sorted and adds exactly that element. |
| KodikSegments.SortBy | src_dataset_creator/core/kodik_fast_downloader.py:121 | The sort by key returns a sorted permutation of its input. |
| KodikSegments.OrderSegmentFilesSpec | src_dataset_creator/core/kodik_fast_downloader.py:121 | The sort raises iff some stem is not an integer. Otherwise it returns every name exactly once, ascending by `int(stem)`. |
| KodikSegments.SortedPermutationUnique | src_dataset_creator/core/kodik_fast_downloader.py:121 | A sorted permutation with distinct keys is unique, so the file order is determined. |
| KodikSegments.OrderDeterminedByKeys | src_dataset_creator/core/kodik_fast_downloader.py:121 | With integer stems and distinct keys, the order is the sorted permutation. |
| KodikSegments.DigitSegmentKey | src_dataset_creator/core/kodik_fast_downloader.py:121 | A file named by a digit index has an integer stem equal to that index's value. |
| KodikSegments.NumericOrder | src_dataset_creator/core/kodik_fast_downloader.py:121-122 | Segment files are ordered by value, not by text: `2.ts` before `10.ts`. |
| KodikSegments.LeftoverTempBreaksOrder | src_dataset_creator/core/kodik_fast_downloader.py:121 | A leftover `{idx}~.ts` makes the sort raise. |
| KodikSegments.BuildFilesTxt | src_dataset_creator/core/kodik_fast_downloader.py:120-122 | The accumulating loop builds `files.txt` as specified: one `file <name>\n` per name, in order. |
| KodikSegments.FilesTxtIsJoin | src_dataset_creator/core/kodik_fast_downloader.py:122 | `files.txt` is the `file <name>` lines joined by newlines, with a final newline. |
| KodikSegments.FilesTxtLines | src_dataset_creator/core/kodik_fast_downloader.py:122-124 | Splitting `files.txt` at newlines gives back one `file <name>` line per name, then an empty last piece. |
| KodikSegments.OutputParamsFlags | src_dataset_creator/core/kodik_fast_downloader.py:125-131 | `-an` is present iff audio is dropped, and it comes first. Then comes `-r {fps}` when fps is given, otherwise `-c copy`, never both. |
| Paths.Suffix | src_dataset_creator/core/kodik_fast_downloader.py:119 | A path suffix is a tail of the name, a dot and at least one non-dot character, never the whole name. |
| Paths.Stem | src_dataset_creator/core/kodik_fast_downloader.py:121 | The stem followed by the suffix is the name. |
| Paths.SuffixOfExtension | src_dataset_creator/core/kodik_fast_downloader.py:215-220 | For `base + ".ts"`, the suffix is `.ts` and the stem is `base`, except for an empty base, which `pathlib` reads as a hidden file. |
| KodikProtocol.Attempts | src_dataset_creator/core/kodik_fast_downloader.py:102-106 | One GET, plus a second to the same URL iff the first raised an SSL error. |
| KodikProtocol.FetchWithRetry | src_dataset_creator/core/kodik_fast_downloader.py:101-108 | The body is written iff the first GET answered, or the first raised an SSL error and the retry answered. The body written is that answer, whatever its status. |
| KodikProtocol.RetryPolicy | src_dataset_creator/core/kodik_fast_downloader.py:102-106 | Any other first error is final with no retry. A first answer is used as is. An error on the retry is final. |
| KodikProtocol.FetchDependsOnTwoAttempts | src_dataset_creator/core/kodik_fast_downloader.py:101-108 | The outcome depends only on the first two attempts at that URL. |
| KodikProtocol.Rename | src_dataset_creator/core/kodik_fast_downloader.py:235 | The destination gets the source's content, the source is gone, and nothing else changes. |
| KodikProtocol.TasksForIndex | src_dataset_creator/core/kodik_fast_downloader.py:222-228 | One task per submitted segment, in order. |
| KodikProtocol.Schedule | src_dataset_creator/core/kodik_fast_downloader.py:214-228 | The scheduling loop as a function of the old files: `ScheduleTasks`, `ScheduleOnlyTemps`, `ScheduleSkipsFinished` and `ScheduleTempContents` characterise its tasks and files. |
| KodikProtocol.StepOnlyTemp | src_dataset_creator/core/kodik_fast_downloader.py:215-228 | One scheduling step changes no path but its segment's temp path. |
| KodikProtocol.ScheduleOnlyTemps | src_dataset_creator/core/kodik_fast_downloader.py:214-228 | The scheduling loop touches only temp paths. In particular, finished segments and the output are left alone. |
| KodikProtocol.ScheduleTasks | src_dataset_creator/core/kodik_fast_downloader.py:214-228 | Exactly one task per segment whose final file was absent before the loop, in manifest order. GETs go only to those segments. |
| KodikProtocol.ScheduleSkipsFinished | src_dataset_creator/core/kodik_fast_downloader.py:216-218 | No task is submitted for a segment whose final file exists. |
| KodikProtocol.PendingAbsent | src_dataset_creator/core/kodik_fast_downloader.py:217-218 | Every pending segment's final file is absent. |
| KodikProtocol.PendingComplete | src_dataset_creator/core/kodik_fast_downloader.py:217-218 | Every segment whose final file is absent is pending. |
| KodikProtocol.ScheduleTempContents | src_dataset_creator/core/kodik_fast_downloader.py:220-227 | After the loop, each submitted segment's temp file holds exactly what its download fetched, and is absent when the download failed. A stale temp file never survives. |
| KodikProtocol.TempNameInjective | src_dataset_creator/core/kodik_fast_downloader.py:220 | Different indices give different temp names. |
| KodikProtocol.CommitOnlyFromSucceeded | src_dataset_creator/core/kodik_fast_downloader.py:230-235 | A path the commit loop creates or changes is the final path of a task whose download succeeded. A path it removes is a task's temp path. |
| KodikProtocol.Commit | src_dataset_creator/core/kodik_fast_downloader.py:230-235 | The commit loop over a completion order: `CommitOnlyFromSucceeded`, `CommitPlacesFinals`, `CommitAllFetched` and `CommitReportsFailure` characterise its files and exception. |
| KodikProtocol.CommitSuccessMeansFetched | src_dataset_creator/core/kodik_fast_downloader.py:232 | A commit loop that ends without an exception has seen only successful downloads. |
| KodikProtocol.CommitPlacesFinals | src_dataset_creator/core/kodik_fast_downloader.py:230-235 | After a commit with no exception, every committed task's final file exists. |
| KodikProtocol.CommitReadyStep | src_dataset_creator/core/kodik_fast_downloader.py:234-235 | Renaming one more finished task keeps the nominal commit on track. |
| KodikProtocol.CommitAllFetched | src_dataset_creator/core/kodik_fast_downloader.py:230-235 | When every download succeeded, the loop ends without an exception in any completion order, and each final file holds its download. |
| KodikProtocol.CommitReportsFailure | src_dataset_creator/core/kodik_fast_downloader.py:232 | A failed download in a full completion order always surfaces as an exception. |
| KodikDownloader.Lookup | src_dataset_creator/core/kodik_fast_downloader.py:205-211 | `Found` carries exactly the parse of the fetched manifest against `https:` + link, and is never empty. The manifest is missing iff a link was found and its fetch returned nothing. It is malformed iff it was fetched and its parse fails. No link fails too. A parse with no segments gives `None`. |
| KodikDownloader.LookupRequests | src_dataset_creator/core/kodik_fast_downloader.py:205-206 | The manifest is fetched once, and only when a link was found. |
| KodikDownloader.Combine | src_dataset_creator/core/kodik_fast_downloader.py:111-147 | The combine raises before writing anything iff a stem is not an integer. Otherwise ffmpeg runs exactly once with the built command, and its only failure is the muxer's. On success the output holds the muxer's video of the listed files, ordered by their integer stems. |
| KodikDownloader.AfterMux | src_dataset_creator/core/kodik_fast_downloader.py:133-144 | A successful ffmpeg run leaves its video at the output path. |
| KodikDownloader.CombineFrame | src_dataset_creator/core/kodik_fast_downloader.py:118-147 | The combine changes nothing but `files.txt` and its output, and the output exists when it succeeds. |
| KodikDownloader.AfterMuxFrame | src_dataset_creator/core/kodik_fast_downloader.py:133-147 | An ffmpeg run changes no path but its output. |
| KodikDownloader.ScheduledNamesNotMp4 | src_dataset_creator/core/kodik_fast_downloader.py:214-228 | Every task path the scheduling loop creates is a `.ts` path, never an `.mp4`. |
| KodikDownloader.ScheduleKeepsMp4 | src_dataset_creator/core/kodik_fast_downloader.py:214-228 | The scheduling loop leaves any `.mp4` path, such as the output, unchanged. |
| KodikDownloader.CommitKeepsMp4 | src_dataset_creator/core/kodik_fast_downloader.py:230-235 | The commit loop leaves any `.mp4` path unchanged. |
| KodikDownloader.Enumerate | src_dataset_creator/core/kodik_fast_downloader.py:119 | The directory listing holds every element once. |
| KodikDownloader.Range | src_dataset_creator/core/kodik_fast_downloader.py:230 | The task numbers are exactly those below the task count. |
| KodikDownloader.Downloader.DownloadSegment | src_dataset_creator/core/kodik_fast_downloader.py:101-108 | The method performs the retry. It writes the fetched body to the path only on success, and logs exactly the GETs it issued. |
| KodikDownloader.Downloader.ScheduleSegments | src_dataset_creator/core/kodik_fast_downloader.py:214-228 | The loop (skip finished, unlink stale temp, download to temp) leaves the files, tasks and GET log that `Schedule` describes. |
| KodikDownloader.Downloader.CommitTasks | src_dataset_creator/core/kodik_fast_downloader.py:230-235 | The loop over an arbitrary completion order leaves the files and the exception that `Commit` gives. A run with no exception has seen every task. |
| KodikDownloader.Downloader.ListSegmentFiles | src_dataset_creator/core/kodik_fast_downloader.py:119 | The listing is exactly the `.ts` files of the directory, each once. |
| KodikDownloader.Downloader.CombineSegments | src_dataset_creator/core/kodik_fast_downloader.py:111-147 | The method lists the directory and leaves the files, exception and ffmpeg log that `Combine` gives for that listing. |
| KodikDownloader.Downloader.MuxListing | src_dataset_creator/core/kodik_fast_downloader.py:120-147 | For a given listing, the sort, the `files.txt` write and the ffmpeg run leave what `Combine` gives. |
| KodikDownloader.Downloader.Locate | src_dataset_creator/core/kodik_fast_downloader.py:205-211 | The look-up result is `Lookup` of the resolved link. It logs the manifest GET and one link look-up and touches no file. |
| KodikDownloader.Downloader.FetchSegments | src_dataset_creator/core/kodik_fast_downloader.py:212-235 | The tasks are those that `Schedule` gives for the old files. The files and the exception afterwards are what `Commit` gives for those tasks in the chosen completion order, and a clean run has seen every task. The output path is untouched. |
| KodikDownloader.Downloader.Finish | src_dataset_creator/core/kodik_fast_downloader.py:237-253 | It runs the combine on the old files without the stale temp output. `Saved` holds iff that combine succeeds. The files are then the combine's, with the temp output renamed to the output, so the output holds the muxed video, and the output's directory is made. On failure the temp output is deleted again and the output is untouched. |
| KodikDownloader.Downloader.Build | src_dataset_creator/core/kodik_fast_downloader.py:212-253 | After a look-up that found segments, the tasks are `Schedule`'s over the old files. A commit exception is returned with `Commit`'s files. After a clean commit, the result, the files and the ffmpeg log are those of `Combine` on the committed files, followed by the rename to the output. |
| KodikDownloader.Downloader.Produce | src_dataset_creator/core/kodik_fast_downloader.py:205-253 | One link look-up is made. A look-up that stops (no link, no manifest, a malformed manifest, no segments) returns that outcome and changes no file and runs no muxer. Otherwise the download is `Build`'s: `Schedule`, then `Commit`, then `Combine` and the rename. |
| KodikDownloader.Downloader.FastDownload | src_dataset_creator/core/kodik_fast_downloader.py:187-253 | It fails with nothing changed when ffmpeg is missing. The working directory is created first. An existing output is returned with no look-up, GET or muxing. Otherwise exactly one look-up is made, and a look-up that stops returns its outcome (`None` for no segments) with no file change and no muxing. The tasks are `Schedule`'s over the files after the directory is made. A commit exception is returned with `Commit`'s files. After a clean commit, `Saved` holds iff `Combine` succeeds; the files are then `Combine`'s with the temp output renamed to the output, which holds the muxed video. A failed combine leaves no temp output. The outcome and the files and directories left are exactly those the relation `Gives` determines from the old state, which is how the title loop refers to each call. |
| KodikDownloader.Downloader.ClearTitleCache | src_dataset_creator/core/kodik_fast_downloader.py:255-273 | The method recomputes the same working directory and removes it with everything beneath it. Nothing outside changes, so an absent directory is a no-op. |
| AnimeFilters.NoneEarlierMeaning | src_dataset_creator/core/anime_filters.py:21-25 | The early-return loop returns True iff no related title is strictly earlier. |
| AnimeFilters.FirstSeason | src_dataset_creator/core/anime_filters.py:19-25 | `FirstSeasonAnimeFilter.filter`: `FirstSeasonIff` states it rejects iff some related title is strictly earlier. |
| AnimeFilters.FirstSeasonIff | src_dataset_creator/core/anime_filters.py:19-25 | `filter` rejects iff some related title was released strictly before the title. |
| AnimeFilters.NoRelatedKept | src_dataset_creator/core/anime_filters.py:21-25 | A title with no related titles is kept. |
| AnimeFilters.SameDayKept | src_dataset_creator/core/anime_filters.py:23 | Related titles released on the same day or later never cause rejection. |
| AnimeFilters.OrderIndependent | src_dataset_creator/core/anime_filters.py:21-25 | Reordering the related titles does not change the verdict. |
| AnimeFilters.ReadsOnlyDates | src_dataset_creator/core/anime_filters.py:19-25 | The verdict depends only on the release dates. |
| AnimeFilters.FilterName | src_dataset_creator/core/anime_filters.py:27-28 | `str()` of the filter is `FirstSeasonAnimeFilter`. |
| AnimeModel.ParseFormat | src_dataset_creator/models/anime_data.py:23-28 | `strptime` reads back what `strftime` wrote. A date comes back as the datetime at midnight of that day. |
| AnimeModel.FormatParse | src_dataset_creator/models/anime_data.py:28 | The parser accepts only text the formatter could have written, and formatting its result gives the text back. |
| AnimeModel.ToJsonFields | src_dataset_creator/models/anime_data.py:21-24 | All twelve fields appear under their own names with their values unchanged, except `released`. `released` becomes `%Y-%m-%d %H:%M:%S` text that parses back to the same day. |
| AnimeModel.ToJson | src_dataset_creator/models/anime_data.py:21-24 | `to_json`: `ToJsonFields` states every field and the `released` text, and `FromJsonToJson` that `Decode` inverts it. |
| AnimeModel.FromJsonToJson | src_dataset_creator/models/anime_data.py:21-29 | `from_json(to_json(a))` restores every field, and `released` comes back as a datetime at midnight. |
| AnimeModel.Decode | src_dataset_creator/models/anime_data.py:26-29 | `from_json` on a value: `DecodeFailures` states its three refusals, `FromJsonToJson` and `ToJsonStable` the round trip. |
| AnimeModel.ToJsonStable | src_dataset_creator/models/anime_data.py:21-29 | A second round trip writes the same JSON. |
| AnimeModel.DecodeFailures | src_dataset_creator/models/anime_data.py:28-29 | A missing `released`, a non-text `released` and a malformed timestamp are each refused with their own error, and the dictionary is left as it was. Keys other than exactly the twelve fields are refused. A success rewrites `released` in the dictionary. |
| AnimeModel.FromJson | src_dataset_creator/models/anime_data.py:26-29 | The method overwrites the caller's `released` entry in place, then builds the record; the result and the new dictionary are `Decode`'s. |
| AnimeParsing.DayOr1 | src_dataset_creator/tools/anime_data_parsing.py:44 | A missing or zero day becomes 1, and any other day is kept. |
| AnimeParsing.SumAppend | src_dataset_creator/tools/anime_data_parsing.py:52 | Popularity sums over concatenated lists add. |
| AnimeParsing.SumBoundsCounts | src_dataset_creator/tools/anime_data_parsing.py:52 | With non-negative counts, popularity is at least every single count. |
| AnimeParsing.SumNonNegative | src_dataset_creator/tools/anime_data_parsing.py:52 | With non-negative counts, popularity is non-negative. |
| AnimeParsing.GenreNames | src_dataset_creator/tools/anime_data_parsing.py:46 | The genres are the genre names, in order. |
| AnimeParsing.MainCharactersMembership | src_dataset_creator/tools/anime_data_parsing.py:47-51 | A name is a main character iff some character role with that name lists `Main` in `rolesEn`. |
| AnimeParsing.MainCharactersAppend | src_dataset_creator/tools/anime_data_parsing.py:47-51 | The filter keeps order: the main characters of a concatenation are concatenated. |
| AnimeParsing.KeptEntriesMembership | src_dataset_creator/tools/anime_data_parsing.py:76-81 | A related entry is kept iff it has an anime that is released and has a year and a month. |
| AnimeParsing.RelatedTitlesShape | src_dataset_creator/tools/anime_data_parsing.py:64-88 | The related list is built iff every kept entry's date is valid. It then has one title per kept entry, in order, with the day defaulted to 1. |
| AnimeParsing.RelatedTitles | src_dataset_creator/tools/anime_data_parsing.py:64-88 | The related titles of a record: `RelatedTitlesShape` and `KeptEntriesMembership` characterise which entries are kept and what each becomes. |
| AnimeParsing.ParseBase | src_dataset_creator/tools/anime_data_parsing.py:33-59 | The base record exists iff the score and a valid release date exist. It copies the ids and the name, has a valid day of at least 1, and empty description and video path. |
| AnimeParsing.ParseShikimori | src_dataset_creator/tools/anime_data_parsing.py:28-90 | The three outcomes: `(None, None)` on a base failure, `(data, None)` without extended data or on an extended failure, and otherwise an extended record that carries the base record and the related titles. |
| AnimeParsing.ParsedFields | src_dataset_creator/tools/anime_data_parsing.py:41-52 | Popularity is the sum of the counts and genres are the names in order. Main characters are exactly the `Main` roles. The day defaults to 1. |
| AnimeParsing.DayDefaultsToFirst | src_dataset_creator/tools/anime_data_parsing.py:41-45 | A title with a missing or zero day is released on the first of its month. |
| AnimeParsing.TrimSynopsis | src_dataset_creator/tools/anime_data_parsing.py:121-128 | Corrected half of the first finding: the trimmed synopsis is always stripped. |
| AnimeParsing.TrimSynopsisDropsCredit | src_dataset_creator/tools/anime_data_parsing.py:121-124 | Corrected half of the first finding: a last line that starts with `[` or `(` and ends with `]` or `)` is dropped, and the text before it is stripped. |
| AnimeParsing.TrimSynopsisKeepsText | src_dataset_creator/tools/anime_data_parsing.py:125-128 | Corrected half of the first finding: any other last line is kept, and the whole synopsis is stripped. |
| AnimeParsing.TrimSynopsisAsWritten | src_dataset_creator/tools/anime_data_parsing.py:121-128 | As written: the trimmed synopsis is always stripped. |
| AnimeParsing.AsWrittenDropsLastLine | src_dataset_creator/tools/anime_data_parsing.py:121-124 | As written: a last line that starts with `[` or `)` and ends with `[` or `)` is dropped, and the text before it is stripped. |
| AnimeParsing.AsWrittenKeepsLastLine | src_dataset_creator/tools/anime_data_parsing.py:125-128 | As written: any other last line is kept, and the whole synopsis is stripped. |
| AnimeParsing.AsWrittenEmptiesOneLine | src_dataset_creator/tools/anime_data_parsing.py:121-128 | As written: a one-line synopsis that is itself a credit line leaves an empty description. |
| AnimeParsing.AsWrittenKeepsParenCredit | src_dataset_creator/tools/anime_data_parsing.py:123 | As written: a `(...)` credit line such as `(Source: ANN)` is kept, because `(` is not among the accepted first characters. |
| AnimeParsing.AsWrittenKeepsSquareCredit | src_dataset_creator/tools/anime_data_parsing.py:123 | As written, a `[...]` credit line is not dropped, because the tuple checks for `)` at the start and `[` at the end. |
| AnimeParsing.SquareCreditDropped | src_dataset_creator/tools/anime_data_parsing.py:121-128 | The corrected trim drops the `[...]` credit line and returns the stripped text. |
| AnimeParsing.ExpandFromMal | src_dataset_creator/tools/anime_data_parsing.py:118-130 | No answer raises, and only then. Otherwise only the description changes, and it is the stripped synopsis without its credit line (corrected credit test). |
| AnimeParsing.Dubs | src_dataset_creator/tools/anime_data_parsing.py:150 | Only dubbed translations from the available list are kept. |
| AnimeParsing.DubsComplete | src_dataset_creator/tools/anime_data_parsing.py:150 | Every available dubbed translation is kept. |
| AnimeParsing.Attempt | src_dataset_creator/tools/anime_data_parsing.py:160-188 | One `fast_download` call from the downloader's current state: its outcome and the files and directories it left are those `Gives` determines for that translation, at the title's save path, in the world the call sees. When the call did not raise, the cache of that translation is then cleared, so the new state is the call's state with that working directory removed. A saved video is at the Kodik output path. |
| AnimeParsing.RetryTurn | src_dataset_creator/tools/anime_data_parsing.py:160-211 | One turn of the loop: one call whose outcome is what `fast_download` gives from the current state, then the cache cleared and the next dub chosen unless the call saved or raised on the last turn. The record of the calls grows by one call. |
| AnimeParsing.TurnStep | src_dataset_creator/tools/anime_data_parsing.py:153-211 | One more call extends the record of the loop: a first call that did not save leaves the loop going with the next dub; a saved video or a second call ends it, and the first dub, `SecondChoice` and the states between the calls are as the loop makes them. |
| AnimeParsing.AllCallsSnoc | src_dataset_creator/tools/anime_data_parsing.py:153-211 | One more call that gives what `fast_download` gives extends the record in which every call does. |
| AnimeParsing.GaveAt | src_dataset_creator/tools/anime_data_parsing.py:160-170 | A call made in the world of its number is related to that number by the per-call relation. |
| AnimeParsing.ClearBeforeSwitch | src_dataset_creator/tools/anime_data_parsing.py:190-204 | `clear_title_cache` before switching dubs: the cache of the translation is gone, whether or not the call had already cleared it. |
| AnimeParsing.DownloadFirstEpisode | src_dataset_creator/tools/anime_data_parsing.py:143-214 | An existing save path is used with no download and no change. No dub raises `NoDubTranslation` before any download, with no call made. Otherwise one or two calls are made: the first dub, then `SecondChoice` (the next dub, or the same one again when it is the only dub). Each call's outcome and the state it left are what `fast_download` gives from the state the previous call left, with its cache cleared between calls. The loop stops at the first saved video. The result is the last call's: its video at the Kodik output path, its exception re-raised, or "no downloadable translation" after `None`. Only `video_path` changes, and the last translation's cache is cleared. |
| AnimeParsing.FromRetry | src_dataset_creator/tools/anime_data_parsing.py:143-214 | When the save path is free and a dub is listed, the loop of `DownloadFirstEpisode` is what the retries did. |
| AnimeParsing.FromKodikFacts | src_dataset_creator/tools/anime_data_parsing.py:143-214 | From the loop's relation: the shortcut, the no-dub error with no call, the first dub and `SecondChoice`, the result of the last call, which errors need two calls, and that only `video_path` changes. |
| AnimeParsing.RetryDubs | src_dataset_creator/tools/anime_data_parsing.py:153-211 | The two-attempt loop over the dubs: the first call uses the first dub and starts from the old state; a second is made iff the first did not save, uses `SecondChoice`, and starts from what the first left with its cache cleared (unless it raised and no other dub was left). Every call's outcome is what `fast_download` gives. The final state is the last call's, its cache cleared unless it raised. The result is `AfterLastAttempt` of the last outcome. |
| AnimeParsing.AfterLastAttempt | src_dataset_creator/tools/anime_data_parsing.py:205-211 | The last call decides: the title is expanded iff that call saved a video. Its failures are only download failures and "no downloadable translation", never a MyAnimeList or no-dub error. |
| AnimeParsing.ExpandFromKodikAsWritten | src_dataset_creator/tools/anime_data_parsing.py:182-200 | As written, with the cache cleared in quality "720": an existing save path is used as it is, no dub raises before any download, otherwise the first dub is tried and then `SecondChoice`, each call giving what `fast_download` gives, and the last call decides the result. When the requested quality's working directory is not under the "720" one, it is left on disk after a download. |
| AnimeParsing.WorkDirsApart | src_dataset_creator/core/kodik_fast_downloader.py:188-196 | With digests of equal length that differ, two qualities' working directories are not nested. |
| AnimeParsing.MiddleDiffers | src_dataset_creator/core/kodik_fast_downloader.py:196 | Paths that differ only in an equal-length middle part differ. |
| AnimeParsing.ExpandFromKodik | src_dataset_creator/tools/anime_data_parsing.py:133-216 | Corrected: the same loop as the source, with the same shortcut, the same no-dub error, the same choice of translations and calls tied to `fast_download`'s outcomes, but the cache is cleared for the requested quality, so after a download that working directory is gone. |
| AnimeParsing.FreshRecordsMembership | src_dataset_creator/tools/anime_data_parsing.py:281 | A record survives de-duplication iff its id was not parsed before. |
| AnimeParsing.FreshRecords | src_dataset_creator/tools/anime_data_parsing.py:281 | The de-duplication of a page: `FreshRecordsMembership` states a record survives iff its id was not parsed before. |
| AnimeParsing.PassesFiltersIff | src_dataset_creator/tools/anime_data_parsing.py:298-306 | The filter chain with its early stop passes iff every filter passes. |
| AnimeParsing.PassesFilters | src_dataset_creator/tools/anime_data_parsing.py:298-306 | The filter chain: `PassesFiltersIff` states it passes iff every filter passes. |
| AnimeParsing.SelectRecordMeaning | src_dataset_creator/tools/anime_data_parsing.py:284-311 | Without filters the base record is kept. With filters it is kept iff extended parsing succeeded and every filter accepts. |
| AnimeParsing.SelectedFromRecords | src_dataset_creator/tools/anime_data_parsing.py:284-311 | Every kept title comes from a record of the batch with the same id. |
| AnimeParsing.SelectedAreFresh | src_dataset_creator/tools/anime_data_parsing.py:281-311 | No kept title has an id parsed before. |
| AnimeParsing.ParseBatch | src_dataset_creator/tools/anime_data_parsing.py:281-311 | The loop keeps exactly the selected fresh titles, in batch order. |
| AnimeParsing.SafeName | src_dataset_creator/tools/anime_data_parsing.py:315 | The safe name contains none of `\/:"*?<>|.,` and is no longer than the name. |
| AnimeParsing.SafeNameStable | src_dataset_creator/tools/anime_data_parsing.py:315 | Sanitising is idempotent and leaves a clean name unchanged. |
| AnimeParsing.SafeNameKeepsOthers | src_dataset_creator/tools/anime_data_parsing.py:315 | Only the unsafe characters are removed: every other character keeps its count. The safe name of a concatenation is the concatenation of the safe names, so the kept characters stay in order. |
| AnimeParsing.KodikOutputIsSavePath | src_dataset_creator/tools/anime_data_parsing.py:160-170 | Splitting the save path into parent and stem and adding `.mp4` back gives the save path again. |
| AnimeParsing.VideoSavePath | src_dataset_creator/tools/anime_data_parsing.py:315-316 | The save path of a title's video: `KodikOutputIsSavePath` states the downloader writes exactly there, and `RelativeVideoPath` what is stored for it. |
| AnimeParsing.RelativeTo | src_dataset_creator/tools/anime_data_parsing.py:359-361 | The relative path, put under the root, is the path. |
| AnimeParsing.RelativeVideoPath | src_dataset_creator/tools/anime_data_parsing.py:315-361 | The stored path is `videos/{id}/{safe}_S1_E1_{quality}.mp4`, relative to the save root. |
| AnimeParsing.ShouldStop | src_dataset_creator/tools/anime_data_parsing.py:381 | The loop stops only for a non-zero `max_samples` strictly exceeded. It never stops when `max_samples` is absent or 0. |
| AnimeParsing.ExpandTitle | src_dataset_creator/tools/anime_data_parsing.py:313-335 | No synopsis drops the title with `MalReturnedNothing` before any download, and only then. With a synopsis: a video already on disk is used as it is; no dub raises before any download; otherwise the first dub is tried, then `SecondChoice`, every call giving what `fast_download` gives, and the last call decides as `AfterLastAttempt` states. A successful expansion sets exactly the trimmed synopsis and the video path under `videos/{id}/`. |
| AnimeParsing.IdsOf | src_dataset_creator/tools/anime_data_parsing.py:363 | Every stored title's id is recorded. |
| AnimeParsing.StoreStep | src_dataset_creator/tools/anime_data_parsing.py:359-365 | Storing one title adds its id, keeps old ids out of the new titles, and keeps the relative path rule. |
| AnimeParsing.StoreBatch | src_dataset_creator/tools/anime_data_parsing.py:340-365 | Every kept title is expanded once, in order, each from the state the one before it left, and each expansion has the whole per-title contract of `ExpandTitle` (its calls are `fast_download`'s). The titles appended are exactly the relativised copies of the expanded ones, in order; a failed expansion is skipped. The parsed ids are then the known ids plus the stored ones, no stored title was known before, and every stored path is relative. |
| AnimeParsing.StoreTitle | src_dataset_creator/tools/anime_data_parsing.py:349-365 | One turn of the batch loop: the next title is expanded from the state the earlier ones left, with `ExpandTitle`'s contract, and iff that succeeded its relativised copy is appended and its id recorded. |
| AnimeParsing.ExpandAndRecord | src_dataset_creator/tools/anime_data_parsing.py:340-356 | The next title is expanded from the state the earlier ones left, and its run, with `ExpandTitle`'s whole contract, extends the batch's record of runs and states. |
| AnimeParsing.RecordStep | src_dataset_creator/tools/anime_data_parsing.py:340-365 | Recording one more title's expansion extends the batch's record by one, and the stored records by that title's copy exactly when its expansion succeeded. |
| AnimeParsing.StoredRecordsSnoc | src_dataset_creator/tools/anime_data_parsing.py:349-365 | One more expansion appends its relativised record when it succeeded, and nothing otherwise. |
| AnimeParsing.StoredRecordsMembership | src_dataset_creator/tools/anime_data_parsing.py:349-365 | A record is among those a batch stores iff some expansion of the batch succeeded and the record is its relativised copy. |
| AnimeParsing.StoredRecordsOnly | src_dataset_creator/tools/anime_data_parsing.py:349-365 | Every stored record is the relativised copy of some successful expansion of the batch. |
| AnimeParsing.StoredRecordsHas | src_dataset_creator/tools/anime_data_parsing.py:349-365 | Every successful expansion of the batch has its relativised copy stored. |
| AnimeParsing.StoredRecordsAre | src_dataset_creator/tools/anime_data_parsing.py:313-365 | A record is stored for a batch iff some kept title got a synopsis and was expanded, and the record is that title with the trimmed synopsis and the relative video path. |
| AnimeParsing.HarvestStep | src_dataset_creator/tools/anime_data_parsing.py:280-379 | One more batch keeps the record of the earlier batches and adds its own: the titles stored so far grow by that batch's stored titles, and the titles expanded so far by that batch's. |
| AnimeParsing.ChainedConcat | src_dataset_creator/tools/anime_data_parsing.py:280-379 | The titles of the earlier batches, expanded one after the other, followed by those of one more batch, are expanded one after the other from the first state to the last. |
| AnimeParsing.ChainedSnoc | src_dataset_creator/tools/anime_data_parsing.py:340-365 | One more title expanded from the state the earlier ones left extends the chain of states by that title. |
| AnimeParsing.UnstoppedStep | src_dataset_creator/tools/anime_data_parsing.py:379-383 | One more batch leaves the stop rule's verdicts on the earlier batches unchanged, and when the new id count does not stop the loop, it does not stop after the new batch either. |
| AnimeParsing.HarvestBatch | src_dataset_creator/tools/anime_data_parsing.py:280-379 | One turn of the page loop: the next page is parsed, its fresh titles that pass the filters are expanded with `ExpandTitle`'s contract, each from the state the one before left, and stored; the loop's record of batches grows by that one. |
| AnimeParsing.Harvest | src_dataset_creator/tools/anime_data_parsing.py:258-383 | The batches read pages in order. Each one read a non-empty page, kept the titles that are fresh (not known and not stored by an earlier batch) and pass the filters, and expanded each of them with `ExpandTitle`'s contract. All titles of all batches were expanded one after the other, each from the state the one before left. The stored titles are those of each batch in turn. The stop rule did not fire before the last batch. The parsed ids are the known ids plus those of the stored titles, and every stored path is relative. The loop ends at the first empty page or by the stop rule, which is tested only after a batch, so a non-empty first page is always processed even when the known ids already exceed `max_samples`. |

## Left out

- The thread pools and their timeouts: segment downloads are taken to run when they are submitted, and the completion order of the commit loop is arbitrary. The title batch is expanded and stored in order, each title from the files and directories the one before it left, so expansions that overlap on disk and the batch timeout are not modelled.
- Floating point: the score is an exact optional real, fps is opaque text, and `video_download_timeout` is not modelled.
- Hydra configuration, tqdm, logging, `time.sleep`, the JSON annotation file writes and the temp-annotation swap: these are I/O.
- The Shikimori request retry: its counter is reset every iteration, so it only ever retries. The 5-attempt MyAnimeList retry and the HTTP clients are I/O; MyAnimeList's answer is an optional synopsis.
- `get_available_translations` and the Kodik parser: these are network calls and become parameters.
- md5 is an uninterpreted function. No collision freedom is claimed.
- `check_ffmpeg` becomes a boolean parameter, and the ffmpeg process becomes a function parameter.
- Only ASCII white space is stripped; Python's `strip` also removes other Unicode white space.
- `int()` on a stem accepts only an optional sign and ASCII digits; Python also accepts surrounding white space and `_` separators.
- `strptime` is modelled for the fixed-width, zero-padded form `strftime` writes. Shorter fields that Python would also read are refused.
- A segment index containing `/` and a directory whose name ends in `.ts` are not modelled.
- Missing keys and wrong value types in Shikimori records: the record datatype has every field. Only a missing score or date, or an invalid date, is modelled as a parse failure. A `releasedOn` that is itself `None` is not modelled.
- The in-place update of `data.description` and `data.video_path` is modelled as a returned copy of the record.
- AnimeFilters.FirstSeason requires a day-typed release date, as the parser produces; comparing a date with a datetime would raise in Python.
- `mkdir(parents=True, exist_ok=True)` also creates every missing ancestor directory. The model records only the cache root, the working directory and the output directory, not their ancestors.
- Path normalisation is not modelled. `relative_to` is modelled only for paths under the root.
- Harvest: pages past the end of the given sequence read as empty, which ends the loop.
- AnimeParsing.ExpandFromMal: uses the corrected credit-line test of the first finding, not the tuple test at anime_data_parsing.py:123. So `"Plot.\n(Source: ANN)"` loses its credit line here, while the source keeps it. A last line such as `)x)` is kept here, while the source drops it. The source's behaviour is modelled by TrimSynopsisAsWritten and its lemmas.
- AnimeParsing.ExpandTitle: uses the corrected trim (through ExpandFromMal) and the corrected cache quality of the second finding (through ExpandFromKodik), not the hard-coded `"720"`. The source's cache clearing is modelled by ExpandFromKodikAsWritten.
- AnimeModel.FromJson: refuses a field of the wrong kind (`WrongKind`), for example a number where a string is expected. `cls(**data)` would accept it, because dataclasses check no types. A typed record cannot hold such a value.
- AnimeParsing.Harvest: a record listed twice on one page is kept and stored twice, as in the source, which de-duplicates only against earlier batches. No claim that a title is stored once is made.

## Findings

| source | as written | input that shows it | evidently intended | confidence | as-written member | corrected member |
|---|---|---|---|---|---|---|
| src_dataset_creator/tools/anime_data_parsing.py:123 | A credit line is dropped only when it starts with `[` or `)` and ends with `[` or `)`. | The synopsis `"Plot.\n[Written by MAL Rewrite]"` keeps its credit line. | Start with `[` or `(`, end with `]` or `)`, so the credit is dropped and `"Plot."` remains. | not executed | AnimeParsing.AsWrittenKeepsSquareCredit | AnimeParsing.SquareCreditDropped |
| src_dataset_creator/tools/anime_data_parsing.py:182-200 | The title cache is cleared with quality `"720"` whatever quality was downloaded. | A download with quality `"480"` leaves its working directory on disk. | Clear the cache of the quality that was downloaded. | not executed | AnimeParsing.ExpandFromKodikAsWritten | AnimeParsing.ExpandFromKodik |
