/**
 * `tools/anime_data_parsing.py`: turning Shikimori records into `AnimeData`,
 * the MyAnimeList synopsis trim, the Kodik translation fallback loop and the
 * batch rules of `main` (de-duplication, the filter chain, the safe file
 * name and video path, the stop rule).
 */
module AnimeParsing {
  import opened PyText
  import opened Paths
  import opened KodikProtocol
  import KodikSegments
  import opened KodikDownloader
  import opened AnimeModel

  // ---------------------------------------------------------------------------
  // Shikimori records
  // ---------------------------------------------------------------------------

  /** `releasedOn`: any part may be missing. */
  datatype ReleasedOn = ReleasedOn(year: Option<int>, month: Option<int>, day: Option<int>)

  datatype Genre = Genre(name: string)

  /** An entry of `characterRoles`: the character's name and its English role names. */
  datatype CharacterRole = CharacterRole(name: string, rolesEn: seq<string>)

  datatype ScoreStat = ScoreStat(count: int)

  /** The `anime` of a `related` entry. */
  datatype RelatedTitle = RelatedTitle(id: string, name: string, status: string, releasedOn: ReleasedOn)

  /** An entry of `related`: its `anime` is `None` for related manga. */
  datatype RelatedEntry = RelatedEntry(anime: Option<RelatedTitle>)

  /** One title as the Shikimori GraphQL API returns it; `score` is `None` when it is not a number. */
  datatype ShikiRecord = ShikiRecord(
    id: string, malId: string, name: string, english: string, rating: string, score: Option<real>,
    releasedOn: ReleasedOn, genres: seq<Genre>, characterRoles: seq<CharacterRole>,
    scoresStats: seq<ScoreStat>, related: seq<RelatedEntry>)

  /** The pair `parse_shikimori_anime_data` returns. */
  datatype ShikiParse = ShikiParse(base: Option<AnimeData>, extended: Option<ExtendedAnimeData>)

  /** `day or 1`: a missing or zero day becomes the first of the month. */
  function DayOr1(day: Option<int>): (r: int)
    ensures day.Some? && day.value != 0 ==> r == day.value
    ensures day.None? || day.value == 0 ==> r == 1
  {
    if day.None? || day.value == 0 then 1 else day.value
  }

  /** `datetime.date(year, month, day or 1)`, or `None` where that raises. */
  function ReleaseDate(r: ReleasedOn): Option<Date> {
    if r.year.None? || r.month.None? then None
    else
      var d := Date(r.year.value, r.month.value, DayOr1(r.day));
      if ValidDate(d) then Some(d) else None
  }

  /** `sum(score_data["count"] for score_data in ...)` */
  function Sum(stats: seq<ScoreStat>): int
    decreases |stats|
  {
    if |stats| == 0 then 0 else Sum(stats[..|stats| - 1]) + stats[|stats| - 1].count
  }

  /** The sum splits over concatenation, so it is the total of every count. */
  lemma {:induction false} SumAppend(a: seq<ScoreStat>, b: seq<ScoreStat>)
    ensures Sum(a + b) == Sum(a) + Sum(b)
    decreases |b|
  {
    if |b| > 0 {
      assert (a + b)[..|a + b| - 1] == a + b[..|b| - 1];
      assert (a + b)[|a + b| - 1] == b[|b| - 1];
      SumAppend(a, b[..|b| - 1]);
    } else {
      assert a + b == a;
    }
  }

  /** With no negative count, the total bounds every single count. */
  lemma {:induction false} SumBoundsCounts(stats: seq<ScoreStat>, k: nat)
    requires forall i :: 0 <= i < |stats| ==> stats[i].count >= 0
    requires k < |stats|
    ensures 0 <= stats[k].count <= Sum(stats)
    decreases |stats|
  {
    SumNonNegative(stats[..|stats| - 1]);
    if k < |stats| - 1 {
      SumBoundsCounts(stats[..|stats| - 1], k);
    }
  }

  lemma {:induction false} SumNonNegative(stats: seq<ScoreStat>)
    requires forall i :: 0 <= i < |stats| ==> stats[i].count >= 0
    ensures Sum(stats) >= 0
    decreases |stats|
  {
    if |stats| > 0 {
      SumNonNegative(stats[..|stats| - 1]);
    }
  }

  /** `[genre["name"] for genre in data["genres"]]` */
  function GenreNames(genres: seq<Genre>): (r: seq<string>)
    ensures |r| == |genres|
    ensures forall k :: 0 <= k < |r| ==> r[k] == genres[k].name
    decreases |genres|
  {
    if |genres| == 0 then [] else GenreNames(genres[..|genres| - 1]) + [genres[|genres| - 1].name]
  }

  /** The names of the characters whose `rolesEn` contains `"Main"`, in order. */
  function MainCharacters(roles: seq<CharacterRole>): seq<string>
    decreases |roles|
  {
    if |roles| == 0 then []
    else
      var last := roles[|roles| - 1];
      MainCharacters(roles[..|roles| - 1]) + (if "Main" in last.rolesEn then [last.name] else [])
  }

  /** A name is listed exactly when some character of that name has the `Main` role. */
  lemma {:induction false} MainCharactersMembership(roles: seq<CharacterRole>, name: string)
    ensures name in MainCharacters(roles) <==>
            exists k :: 0 <= k < |roles| && roles[k].name == name && "Main" in roles[k].rolesEn
    decreases |roles|
  {
    if |roles| > 0 {
      var prefix := roles[..|roles| - 1];
      MainCharactersMembership(prefix, name);
      if exists k :: 0 <= k < |prefix| && prefix[k].name == name && "Main" in prefix[k].rolesEn {
        var k :| 0 <= k < |prefix| && prefix[k].name == name && "Main" in prefix[k].rolesEn;
        assert roles[k] == prefix[k];
      }
      if exists k :: 0 <= k < |roles| && roles[k].name == name && "Main" in roles[k].rolesEn {
        var k :| 0 <= k < |roles| && roles[k].name == name && "Main" in roles[k].rolesEn;
        if k < |prefix| {
          assert prefix[k] == roles[k];
        }
      }
    }
  }

  /** The filter keeps the order: characters listed earlier come first. */
  lemma {:induction false} MainCharactersAppend(a: seq<CharacterRole>, b: seq<CharacterRole>)
    ensures MainCharacters(a + b) == MainCharacters(a) + MainCharacters(b)
    decreases |b|
  {
    if |b| > 0 {
      assert (a + b)[..|a + b| - 1] == a + b[..|b| - 1];
      assert (a + b)[|a + b| - 1] == b[|b| - 1];
      MainCharactersAppend(a, b[..|b| - 1]);
    } else {
      assert a + b == a;
    }
  }

  /** The condition of the related-anime comprehension. */
  predicate KeptRelated(e: RelatedEntry) {
    e.anime.Some? && e.anime.value.status == "released"
    && e.anime.value.releasedOn.year.Some? && e.anime.value.releasedOn.month.Some?
  }

  /** The entries the comprehension keeps, in order. */
  function KeptEntries(entries: seq<RelatedEntry>): seq<RelatedEntry>
    decreases |entries|
  {
    if |entries| == 0 then []
    else
      var last := entries[|entries| - 1];
      KeptEntries(entries[..|entries| - 1]) + (if KeptRelated(last) then [last] else [])
  }

  /** The `RelatedAnimeData` built from a kept entry, or `None` when its date is invalid. */
  function ToRelated(e: RelatedEntry): Option<RelatedAnimeData>
    requires e.anime.Some?
  {
    var t := e.anime.value;
    match ReleaseDate(t.releasedOn)
    case None => None
    case Some(d) => Some(RelatedAnimeData(t.id, t.name, d))
  }

  /** The related-anime comprehension: `None` when building one of them raises. */
  function RelatedTitles(entries: seq<RelatedEntry>): Option<seq<RelatedAnimeData>>
    decreases |entries|
  {
    if |entries| == 0 then Some([])
    else
      var prev := RelatedTitles(entries[..|entries| - 1]);
      var last := entries[|entries| - 1];
      if prev.None? then None
      else if !KeptRelated(last) then prev
      else match ToRelated(last)
        case None => None
        case Some(rel) => Some(prev.value + [rel])
  }

  /** Every kept entry has a valid date. */
  ghost predicate AllDated(kept: seq<RelatedEntry>) {
    forall k :: 0 <= k < |kept| ==> kept[k].anime.Some? && ToRelated(kept[k]).Some?
  }

  /**
   * The related titles are exactly the kept entries, converted one by one in
   * order; they are missing exactly when some kept entry has an invalid date.
   */
  lemma {:induction false} RelatedTitlesShape(entries: seq<RelatedEntry>)
    ensures var kept := KeptEntries(entries);
            && (forall k :: 0 <= k < |kept| ==> KeptRelated(kept[k]))
            && (RelatedTitles(entries).Some? <==> AllDated(kept))
            && (RelatedTitles(entries).Some? ==>
                  |RelatedTitles(entries).value| == |kept|
                  && forall k :: 0 <= k < |kept| ==> Some(RelatedTitles(entries).value[k]) == ToRelated(kept[k]))
    decreases |entries|
  {
    if |entries| > 0 {
      var prefix := entries[..|entries| - 1];
      var last := entries[|entries| - 1];
      RelatedTitlesShape(prefix);
      var kp := KeptEntries(prefix);
      var kept := KeptEntries(entries);
      var prev := RelatedTitles(prefix);
      if KeptRelated(last) {
        assert kept == kp + [last];
        assert forall k :: 0 <= k < |kp| ==> kept[k] == kp[k];
        assert kept[|kp|] == last;
        if AllDated(kept) {
          assert AllDated(kp);
          assert ToRelated(kept[|kp|]).Some?;
        } else if prev.Some? {
          var k :| 0 <= k < |kept| && !(kept[k].anime.Some? && ToRelated(kept[k]).Some?);
          assert k == |kp|;
        }
        if RelatedTitles(entries).Some? {
          var rels := RelatedTitles(entries).value;
          assert rels == prev.value + [ToRelated(last).value];
          assert forall k :: 0 <= k < |kp| ==> rels[k] == prev.value[k];
        }
      } else {
        assert kept == kp + [] == kp;
        assert RelatedTitles(entries) == prev;
      }
    }
  }

  /** An entry is kept exactly when it is an anime, released, with a year and a month. */
  lemma {:induction false} KeptEntriesMembership(entries: seq<RelatedEntry>, e: RelatedEntry)
    ensures e in KeptEntries(entries) <==> e in entries && KeptRelated(e)
    decreases |entries|
  {
    if |entries| > 0 {
      var prefix := entries[..|entries| - 1];
      KeptEntriesMembership(prefix, e);
      assert entries == prefix + [entries[|entries| - 1]];
    }
  }

  /** The base record, or `None` when one of its fields raises. */
  function ParseBase(rec: ShikiRecord): (r: Option<AnimeData>)
    ensures r.Some? <==> rec.score.Some? && ReleaseDate(rec.releasedOn).Some?
    ensures r.Some? ==> r.value.released.Day? && r.value.released.date.day >= 1 && ValidDate(r.value.released.date)
    ensures r.Some? ==> r.value.description == "" && r.value.videoPath == ""
    ensures r.Some? ==> r.value.id == rec.id && r.value.malId == rec.malId && r.value.name == rec.name
  {
    if rec.score.None? then None
    else match ReleaseDate(rec.releasedOn)
      case None => None
      case Some(d) =>
        Some(AnimeData(rec.id, rec.malId, rec.name, rec.english, rec.rating, rec.score.value, Day(d),
                       GenreNames(rec.genres), MainCharacters(rec.characterRoles), Sum(rec.scoresStats), "", ""))
  }

  /** `parse_shikimori_anime_data(data, with_extended_data)` */
  function ParseShikimori(rec: ShikiRecord, withExtended: bool): (r: ShikiParse)
    // a failure in the base record gives `(None, None)`
    ensures r.base.None? ==> r.extended.None?
    ensures r.base == ParseBase(rec)
    // without the extended part requested, none is built
    ensures !withExtended ==> r.extended.None?
    // a failure in the extended part keeps the base record
    ensures r.extended.Some? <==> withExtended && r.base.Some? && RelatedTitles(rec.related).Some?
    // the extended record carries every base field
    ensures r.extended.Some? ==> r.extended.value.base == r.base.value
                                 && r.extended.value.relatedAnimes == RelatedTitles(rec.related).value
  {
    match ParseBase(rec)
    case None => ShikiParse(None, None)
    case Some(a) =>
      if !withExtended then ShikiParse(Some(a), None)
      else match RelatedTitles(rec.related)
        case None => ShikiParse(Some(a), None)
        case Some(rels) => ShikiParse(Some(a), Some(ExtendedAnimeData(a, rels)))
  }

  /**
   * The fields computed from the record: popularity is the sum of all counts,
   * genres are the names in order, main characters are those with the `Main`
   * role, and a missing or zero day is the first of the month.
   */
  lemma ParsedFields(rec: ShikiRecord, name: string)
    requires ParseBase(rec).Some?
    ensures var a := ParseBase(rec).value;
            && a.popularity == Sum(rec.scoresStats)
            && |a.genres| == |rec.genres|
            && (forall k :: 0 <= k < |a.genres| ==> a.genres[k] == rec.genres[k].name)
            && (name in a.mainCharacters <==>
                  exists k :: 0 <= k < |rec.characterRoles| && rec.characterRoles[k].name == name
                              && "Main" in rec.characterRoles[k].rolesEn)
            && a.released == Day(Date(rec.releasedOn.year.value, rec.releasedOn.month.value, DayOr1(rec.releasedOn.day)))
  {
    MainCharactersMembership(rec.characterRoles, name);
  }

  /** A title without a day, or with day 0, is dated the first of its month. */
  lemma DayDefaultsToFirst(rec: ShikiRecord)
    requires rec.score.Some? && rec.releasedOn.year.Some? && rec.releasedOn.month.Some?
    requires rec.releasedOn.day.None? || rec.releasedOn.day == Some(0)
    requires 1 <= rec.releasedOn.year.value <= 9999 && 1 <= rec.releasedOn.month.value <= 12
    ensures ParseBase(rec).Some?
    ensures ParseBase(rec).value.released == Day(Date(rec.releasedOn.year.value, rec.releasedOn.month.value, 1))
  {
  }

  // ---------------------------------------------------------------------------
  // The MyAnimeList synopsis
  // ---------------------------------------------------------------------------

  /** The test the source applies to the last line: starts with `[` or `)`, and ends with `[` or `)`. */
  predicate IsCreditAsWritten(line: string) {
    (StartsWith(line, "[") || StartsWith(line, ")")) && (EndsWith(line, "[") || EndsWith(line, ")"))
  }

  /** A source credit: a line in square brackets or in parentheses. */
  predicate IsCredit(line: string) {
    (StartsWith(line, "[") || StartsWith(line, "(")) && (EndsWith(line, "]") || EndsWith(line, ")"))
  }

  /** The description as the source computes it, with its bracket test. */
  function TrimSynopsisAsWritten(synopsis: string): (r: string)
    ensures Strip(r) == r
  {
    var parts := RPartition(synopsis, '\n');
    var text := if IsCreditAsWritten(parts.2) then parts.0 else synopsis;
    StripIdempotent(text);
    Strip(text)
  }

  /** As written: a last line passing the source's test is dropped, with the newline before it. */
  lemma AsWrittenDropsLastLine(text: string, line: string)
    requires '\n' !in line && IsCreditAsWritten(line)
    ensures TrimSynopsisAsWritten(text + "\n" + line) == Strip(text)
  {
    RPartitionAt(text, '\n', line);
  }

  /** As written: any other last line stays, and the whole synopsis is only stripped. */
  lemma AsWrittenKeepsLastLine(text: string, line: string)
    requires '\n' !in line && !IsCreditAsWritten(line)
    ensures TrimSynopsisAsWritten(text + "\n" + line) == Strip(text + "\n" + line)
  {
    RPartitionAt(text, '\n', line);
  }

  /** As written: a one-line synopsis that passes the test, such as `")x)"`, leaves an empty description. */
  lemma AsWrittenEmptiesOneLine(line: string)
    requires '\n' !in line && IsCreditAsWritten(line)
    ensures TrimSynopsisAsWritten(line) == ""
  {
    assert RPartition(line, '\n') == ([], [], line);
  }

  /** The description: the synopsis without a trailing credit line, stripped. */
  function TrimSynopsis(synopsis: string): (r: string)
    ensures Strip(r) == r
  {
    var parts := RPartition(synopsis, '\n');
    var text := if IsCredit(parts.2) then parts.0 else synopsis;
    StripIdempotent(text);
    Strip(text)
  }

  /** A last line that is a bracketed credit is dropped, with the newline before it. */
  lemma TrimSynopsisDropsCredit(text: string, credit: string)
    requires '\n' !in credit && IsCredit(credit)
    ensures TrimSynopsis(text + "\n" + credit) == Strip(text)
  {
    RPartitionAt(text, '\n', credit);
  }

  /** Any other last line stays, and the whole synopsis is only stripped. */
  lemma TrimSynopsisKeepsText(text: string, line: string)
    requires '\n' !in line && !IsCredit(line)
    ensures TrimSynopsis(text + "\n" + line) == Strip(text + "\n" + line)
  {
    RPartitionAt(text, '\n', line);
  }

  /**
   * With the source's test, a credit in square brackets is never dropped:
   * `"Plot.\n[Written by MAL Rewrite]"` comes back whole.
   */
  lemma AsWrittenKeepsSquareCredit(text: string, inner: string)
    requires '\n' !in inner
    requires |text| > 0 && !IsSpace(text[0])
    ensures var s := text + "\n" + ("[" + inner + "]");
            TrimSynopsisAsWritten(s) == s
  {
    var credit := "[" + inner + "]";
    var s := text + "\n" + credit;
    assert credit[|credit| - 1] == ']';
    RPartitionAt(text, '\n', credit);
    assert !IsCreditAsWritten(credit);
    assert s[0] == text[0] && s[|s| - 1] == ']';
    StripNoSpaceEnds(s);
  }

  /**
   * With the source's test, a credit in parentheses is never dropped either:
   * `"Plot.\n(Source: ANN)"` comes back whole.
   */
  lemma AsWrittenKeepsParenCredit(text: string, inner: string)
    requires '\n' !in inner
    requires |text| > 0 && !IsSpace(text[0])
    ensures var s := text + "\n" + ("(" + inner + ")");
            TrimSynopsisAsWritten(s) == s
  {
    var credit := "(" + inner + ")";
    var s := text + "\n" + credit;
    assert credit[0] == '(' && credit[|credit| - 1] == ')';
    RPartitionAt(text, '\n', credit);
    assert !IsCreditAsWritten(credit);
    assert s[0] == text[0] && s[|s| - 1] == ')';
    StripNoSpaceEnds(s);
  }

  /** With the intended test the same credit is dropped, leaving the text before it. */
  lemma SquareCreditDropped(text: string, inner: string)
    requires '\n' !in inner
    requires |text| > 0 && !IsSpace(text[0]) && !IsSpace(text[|text| - 1])
    ensures TrimSynopsis(text + "\n" + ("[" + inner + "]")) == text
  {
    var credit := "[" + inner + "]";
    assert credit[0] == '[' && credit[|credit| - 1] == ']';
    assert '\n' !in credit;
    TrimSynopsisDropsCredit(text, credit);
    StripNoSpaceEnds(text);
  }

  /** What one of the two expansions ends with: the updated record, or the exception it raises. */
  datatype Expansion = Expanded(data: AnimeData) | Raised(error: ExpansionError)

  datatype ExpansionError =
    | MalReturnedNothing
    | NoDubTranslation
    | NoDownloadableTranslation
    | DownloadFailed(failure: Failure)

  /**
   * `expansion_anime_data_from_mal` once the grabber answered: `synopsis` is
   * the synopsis it returned, or `None` when it returned nothing.
   */
  function ExpandFromMal(data: AnimeData, synopsis: Option<string>): (r: Expansion)
    ensures r.Raised? <==> synopsis.None?
    ensures r.Raised? ==> r.error == MalReturnedNothing
    // only the description changes: the synopsis without its credit line, stripped
    ensures r.Expanded? ==> r.data.(description := data.description) == data
    ensures r.Expanded? ==> r.data.description == TrimSynopsis(synopsis.value) && Strip(r.data.description) == r.data.description
  {
    match synopsis
    case None => Raised(MalReturnedNothing)
    case Some(s) => Expanded(data.(description := TrimSynopsis(s)))
  }

  // ---------------------------------------------------------------------------
  // The Kodik download with translation fallback
  // ---------------------------------------------------------------------------

  datatype TranslationKind = Dub | Sub | Unknown

  /** `TranslationInfo` */
  datatype TranslationInfo = TranslationInfo(id: string, kind: TranslationKind, name: string)

  /** Everything one `fast_download` call sees from outside: ffmpeg, the parser, the network, the muxer. */
  datatype World = World(ffmpeg: bool, resolve: LinkResolver, fetchText: TextSource, net: Network, mux: Muxer)

  /** The voiced translations, in order. */
  function Dubs(available: seq<TranslationInfo>): (r: seq<TranslationInfo>)
    ensures forall k :: 0 <= k < |r| ==> r[k].kind == Dub && r[k] in available
    decreases |available|
  {
    if |available| == 0 then []
    else
      var last := available[|available| - 1];
      var prev := Dubs(available[..|available| - 1]);
      assert forall k :: 0 <= k < |prev| ==> prev[k] in available;
      prev + (if last.kind == Dub then [last] else [])
  }

  /** Every voiced translation is considered. */
  lemma {:induction false} DubsComplete(available: seq<TranslationInfo>, t: TranslationInfo)
    requires t in available && t.kind == Dub
    ensures t in Dubs(available)
    decreases |available|
  {
    var prefix := available[..|available| - 1];
    if t != available[|available| - 1] {
      assert available == prefix + [available[|available| - 1]];
      DubsComplete(prefix, t);
    }
  }

  /** The translation of the second attempt: the next voiced one when there is one, else the same. */
  function SecondChoice(dubs: seq<TranslationInfo>): string
    requires |dubs| > 0
  {
    if |dubs| > 1 then dubs[1].id else dubs[0].id
  }

  /** Where `fast_download` puts the video for `save_path`. */
  function KodikOutput(savePath: Path): Path {
    Path(savePath.dir, Stem(savePath.name) + ".mp4")
  }

  /**
   * What the loop makes of its last `fast_download` call: the video it saved,
   * its exception re-raised, or, for `None`, no downloadable translation.
   */
  function AfterLastAttempt(data: AnimeData, last: Outcome): (r: Expansion)
    ensures r.Expanded? <==> last.Saved?
    ensures r.Raised? ==> r.error != MalReturnedNothing && r.error != NoDubTranslation
  {
    match last
    case Saved(p) => Expanded(data.(videoPath := PathString(p)))
    case Failed(f) => Raised(DownloadFailed(f))
    case NoSegments => Raised(NoDownloadableTranslation)
  }

  /** The working directory of `translationId` in `quality` is gone. */
  predicate WorkDirCleared(d: Downloader, id: string, translationId: string, quality: string)
    reads d
  {
    d.WorkDir(id, "shikimori", 1, translationId, quality) !in d.dirs
  }

  /**
   * The working directory of a download in `quality` is still there, unless
   * it lies inside the one cleared for `cacheQuality`.
   */
  predicate WorkDirKept(d: Downloader, id: string, translationId: string, quality: string, cacheQuality: string)
    reads d
  {
    var w := d.WorkDir(id, "shikimori", 1, translationId, quality);
    !Within(w, d.WorkDir(id, "shikimori", 1, translationId, cacheQuality)) ==> w in d.dirs
  }

  /**
   * One `fast_download` call of the loop: the files and directories it
   * started from, the segment tasks, the order the thread pool finished them
   * in, the order the working directory was listed in, and the files and
   * directories the call left.
   */
  datatype Attempted = Attempted(files: map<Path, Content>, dirs: set<string>, tasks: seq<Task>, order: seq<nat>,
                                 listing: seq<string>, filesAfter: map<Path, Content>, dirsAfter: set<string>)

  /** Call `a` of the loop, for `translationId` in world `w`, returned `outcome`, as `fast_download` does. */
  ghost predicate AttemptGave(d: Downloader, id: string, savePath: Path, fps: Option<string>, withAudio: bool,
                              quality: string, translationId: string, w: World, a: Attempted, outcome: Outcome)
  {
    d.Gives(a.files, a.dirs, id, "shikimori", 1, translationId, quality, Some(savePath.dir), Stem(savePath.name),
            fps, withAudio, w.ffmpeg, w.resolve, w.fetchText, w.net, w.mux, a.tasks, a.order, a.listing, outcome,
            a.filesAfter, a.dirsAfter)
  }

  /** `gave` holds of every call `k`: its translation, its number, its state and its outcome. */
  ghost predicate AllCalls(tried: seq<string>, attempts: seq<Attempted>, outcomes: seq<Outcome>,
                           gave: (string, nat, Attempted, Outcome) -> bool)
  {
    && |attempts| == |tried| == |outcomes|
    && forall k {:trigger gave(tried[k], k, attempts[k], outcomes[k])} ::
         0 <= k < |tried| ==> gave(tried[k], k, attempts[k], outcomes[k])
  }

  /** `AttemptGave` as a relation between a call's translation, number, state and outcome. */
  ghost function GaveRel(d: Downloader, id: string, savePath: Path, fps: Option<string>, withAudio: bool,
                         quality: string, worlds: nat -> World): (string, nat, Attempted, Outcome) -> bool
  {
    (t: string, k: nat, a: Attempted, o: Outcome) => AttemptGave(d, id, savePath, fps, withAudio, quality, t, worlds(k), a, o)
  }

  /** A call made in `worlds(k)` is related by `GaveRel` to its number `k`. */
  lemma GaveAt(d: Downloader, id: string, savePath: Path, fps: Option<string>, withAudio: bool, quality: string,
               worlds: nat -> World, k: nat, t: string, w: World, a: Attempted, o: Outcome)
    requires w == worlds(k) && AttemptGave(d, id, savePath, fps, withAudio, quality, t, w, a, o)
    ensures GaveRel(d, id, savePath, fps, withAudio, quality, worlds)(t, k, a, o)
  {
  }

  /** One more call that satisfies `gave` extends the record of the calls. */
  lemma AllCallsSnoc(tried: seq<string>, attempts: seq<Attempted>, outcomes: seq<Outcome>,
                     gave: (string, nat, Attempted, Outcome) -> bool, t: string, a: Attempted, o: Outcome)
    requires AllCalls(tried, attempts, outcomes, gave) && gave(t, |tried|, a, o)
    ensures AllCalls(tried + [t], attempts + [a], outcomes + [o], gave)
  {
    var tried', attempts', outcomes' := tried + [t], attempts + [a], outcomes + [o];
    forall k | 0 <= k < |tried'|
      ensures gave(tried'[k], k, attempts'[k], outcomes'[k])
    {
      if k < |tried| {
        assert tried'[k] == tried[k] && attempts'[k] == attempts[k] && outcomes'[k] == outcomes[k];
      }
    }
  }

  /** `files` with the working directory of `translationId` in `cacheQuality` cleared when `clear`. */
  function FilesLeft(d: Downloader, id: string, translationId: string, cacheQuality: string,
                     files: map<Path, Content>, clear: bool): map<Path, Content>
  {
    if clear then ClearedFiles(files, d.WorkDir(id, "shikimori", 1, translationId, cacheQuality)) else files
  }

  /** `dirs` with the working directory of `translationId` in `cacheQuality` cleared when `clear`. */
  function DirsLeft(d: Downloader, id: string, translationId: string, cacheQuality: string,
                    dirs: set<string>, clear: bool): set<string>
  {
    if clear then ClearedDirs(dirs, d.WorkDir(id, "shikimori", 1, translationId, cacheQuality)) else dirs
  }

  /**
   * One `fast_download` call of the loop, followed by clearing the cache when
   * the call did not raise.
   */
  method Attempt(id: string, d: Downloader, savePath: Path, fps: Option<string>, withAudio: bool,
                 quality: string, cacheQuality: string, translationId: string, w: World)
    returns (outcome: Outcome, ghost a: Attempted)
    modifies d
    // the call starts from the downloader's files and directories and returns what `fast_download` gives
    ensures a.files == old(d.files) && a.dirs == old(d.dirs)
    ensures AttemptGave(d, id, savePath, fps, withAudio, quality, translationId, w, a, outcome)
    // a call that did not raise has its cache cleared afterwards
    ensures d.files == FilesLeft(d, id, translationId, cacheQuality, a.filesAfter, !outcome.Failed?)
    ensures d.dirs == DirsLeft(d, id, translationId, cacheQuality, a.dirsAfter, !outcome.Failed?)
    ensures outcome.Saved? ==> outcome.path == KodikOutput(savePath)
    ensures !outcome.Failed? ==> WorkDirCleared(d, id, translationId, cacheQuality)
    // the working directory of the download stays unless it lies inside the cleared one
    ensures outcome.Saved? ==> WorkDirKept(d, id, translationId, quality, cacheQuality)
  {
    ghost var files0, dirs0 := d.files, d.dirs;
    ghost var tasks, order, listing;
    outcome, tasks, order, listing := d.FastDownload(id, "shikimori", 1, translationId, quality, Some(savePath.dir),
                                                     Stem(savePath.name), fps, withAudio, w.ffmpeg, w.resolve, w.fetchText, w.net, w.mux);
    a := Attempted(files0, dirs0, tasks, order, listing, d.files, d.dirs);
    if !outcome.Failed? {
      d.ClearTitleCache(id, "shikimori", 1, translationId, cacheQuality);
    }
  }

  /**
   * What `expansion_anime_data_from_kodik` does for `data`, its loop clearing
   * caches in `cacheQuality`, taking the files and directories from `files0`,
   * `dirs0` to `files1`, `dirs1`: `tried`, `outcomes` and `attempts` are its
   * `fast_download` calls and `worlds(k)` is what call `k` sees.
   */
  ghost predicate FromKodik(d: Downloader, data: AnimeData, savePath: Path, fps: Option<string>, withAudio: bool,
                            quality: string, cacheQuality: string, available: seq<TranslationInfo>,
                            worlds: nat -> World, files0: map<Path, Content>, dirs0: set<string>, r: Expansion,
                            tried: seq<string>, outcomes: seq<Outcome>, attempts: seq<Attempted>,
                            files1: map<Path, Content>, dirs1: set<string>)
  {
    var dubs := Dubs(available);
    if Exists(files0, dirs0, savePath) then
      // an existing save path is used as it is, without a call to the downloader
      && r == Expanded(data.(videoPath := PathString(savePath)))
      && tried == [] && outcomes == [] && attempts == [] && files1 == files0 && dirs1 == dirs0
    else if |dubs| == 0 then
      // only voiced translations are tried, and none at all raises before any download
      && r == Raised(NoDubTranslation)
      && tried == [] && outcomes == [] && attempts == [] && files1 == files0 && dirs1 == dirs0
    else
      // the loop over the voiced translations, each call returning what `fast_download` gives
      && TurnsEnded(GaveRel(d, data.id, savePath, fps, withAudio, quality, worlds), d, data.id, savePath,
                    cacheQuality, dubs, files0, dirs0, tried, outcomes, attempts, files1, dirs1)
      // the last call decides: its video, its exception re-raised, or no translation left
      && r == AfterLastAttempt(data, outcomes[|tried| - 1])
  }

  /**
   * The loop of `expansion_anime_data_from_kodik`, with the quality its cache
   * is cleared with as a parameter. `tried` lists the translation of every
   * `fast_download` call, `outcomes` what each call returned or raised,
   * `attempts` the state each started from and left, and `worlds(n)` is what
   * call `n` sees.
   */
  method DownloadFirstEpisode(data: AnimeData, d: Downloader, savePath: Path, fps: Option<string>, withAudio: bool,
                              quality: string, cacheQuality: string, available: seq<TranslationInfo>,
                              worlds: nat -> World)
    returns (r: Expansion, tried: seq<string>, ghost outcomes: seq<Outcome>, ghost attempts: seq<Attempted>)
    modifies d
    ensures FromKodik(d, data, savePath, fps, withAudio, quality, cacheQuality, available, worlds,
                      old(d.files), old(d.dirs), r, tried, outcomes, attempts, d.files, d.dirs)
    // an existing save path is used as it is; without a voiced translation nothing is downloaded;
    // otherwise the first voiced translation is tried, then the next one if there is one
    ensures Exists(old(d.files), old(d.dirs), savePath) ==>
              r == Expanded(data.(videoPath := PathString(savePath))) && tried == []
    ensures !Exists(old(d.files), old(d.dirs), savePath) && |Dubs(available)| == 0 ==>
              r == Raised(NoDubTranslation) && tried == []
    ensures !Exists(old(d.files), old(d.dirs), savePath) && |Dubs(available)| > 0 ==>
              && 1 <= |tried| <= 2 && tried[0] == Dubs(available)[0].id
              && (|tried| == 2 ==> tried[1] == SecondChoice(Dubs(available)))
              && r == AfterLastAttempt(data, outcomes[|tried| - 1])
    // an existing save path involves no request, look-up or muxing
    ensures Exists(old(d.files), old(d.dirs), savePath) ==>
              d.requests == old(d.requests) && d.lookups == old(d.lookups) && d.muxRuns == old(d.muxRuns)
    ensures r.Raised? && r.error.DownloadFailed? ==> |tried| == 2
    ensures r.Raised? ==> r.error != MalReturnedNothing
    ensures r.Raised? && r.error == NoDownloadableTranslation ==> |tried| == 2
    // only the video path changes, and after a download it is where the video was saved
    ensures r.Expanded? ==> r.data.(videoPath := data.videoPath) == data
    ensures r.Expanded? ==> r.data.videoPath == PathString(if tried == [] then savePath else KodikOutput(savePath))
    // the cache of the last translation tried is cleared, in the quality given for clearing
    ensures (r.Expanded? || r == Raised(NoDownloadableTranslation)) && tried != [] ==>
              WorkDirCleared(d, data.id, tried[|tried| - 1], cacheQuality)
    // after a download, a working directory outside the cleared one is left in place
    ensures r.Expanded? && tried != [] ==>
              WorkDirKept(d, data.id, tried[|tried| - 1], quality, cacheQuality)
  {
    if Exists(d.files, d.dirs, savePath) {
      r, tried, outcomes, attempts := Expanded(data.(videoPath := PathString(savePath))), [], [], [];
    } else if |Dubs(available)| == 0 {
      r, tried, outcomes, attempts := Raised(NoDubTranslation), [], [], [];
    } else {
      r, tried, outcomes, attempts := RetryDubs(data, d, savePath, fps, withAudio, quality, cacheQuality, Dubs(available), worlds);
      FromRetry(d, data, savePath, fps, withAudio, quality, cacheQuality, available, worlds,
                old(d.files), old(d.dirs), r, tried, outcomes, attempts, d.files, d.dirs);
      FromKodikFacts(d, data, savePath, fps, withAudio, quality, cacheQuality, available, worlds,
                     old(d.files), old(d.dirs), r, tried, outcomes, attempts, d.files, d.dirs);
    }
  }

  /** When the save path is free and a voiced translation is listed, the loop is what the retries did. */
  lemma FromRetry(d: Downloader, data: AnimeData, savePath: Path, fps: Option<string>, withAudio: bool,
                  quality: string, cacheQuality: string, available: seq<TranslationInfo>,
                  worlds: nat -> World, files0: map<Path, Content>, dirs0: set<string>, r: Expansion,
                  tried: seq<string>, outcomes: seq<Outcome>, attempts: seq<Attempted>,
                  files1: map<Path, Content>, dirs1: set<string>)
    requires !Exists(files0, dirs0, savePath) && |Dubs(available)| > 0
    requires TurnsEnded(GaveRel(d, data.id, savePath, fps, withAudio, quality, worlds), d, data.id, savePath,
                        cacheQuality, Dubs(available), files0, dirs0, tried, outcomes, attempts, files1, dirs1)
    requires r == AfterLastAttempt(data, outcomes[|tried| - 1])
    ensures FromKodik(d, data, savePath, fps, withAudio, quality, cacheQuality, available, worlds,
                      files0, dirs0, r, tried, outcomes, attempts, files1, dirs1)
  {
  }

  /** What the loop's contract says of its result: which errors need two calls, and what an expansion changes. */
  lemma FromKodikFacts(d: Downloader, data: AnimeData, savePath: Path, fps: Option<string>, withAudio: bool,
                       quality: string, cacheQuality: string, available: seq<TranslationInfo>,
                       worlds: nat -> World, files0: map<Path, Content>, dirs0: set<string>, r: Expansion,
                       tried: seq<string>, outcomes: seq<Outcome>, attempts: seq<Attempted>,
                       files1: map<Path, Content>, dirs1: set<string>)
    requires FromKodik(d, data, savePath, fps, withAudio, quality, cacheQuality, available, worlds,
                       files0, dirs0, r, tried, outcomes, attempts, files1, dirs1)
    ensures Exists(files0, dirs0, savePath) ==> r == Expanded(data.(videoPath := PathString(savePath))) && tried == []
    ensures !Exists(files0, dirs0, savePath) && |Dubs(available)| == 0 ==> r == Raised(NoDubTranslation) && tried == []
    ensures !Exists(files0, dirs0, savePath) && |Dubs(available)| > 0 ==>
              && 1 <= |tried| <= 2 && tried[0] == Dubs(available)[0].id
              && (|tried| == 2 ==> tried[1] == SecondChoice(Dubs(available)))
              && r == AfterLastAttempt(data, outcomes[|tried| - 1])
    ensures r.Raised? && r.error.DownloadFailed? ==> |tried| == 2
    ensures r.Raised? ==> r.error != MalReturnedNothing
    ensures r.Raised? && r.error == NoDownloadableTranslation ==> |tried| == 2
    ensures r.Expanded? ==> r.data.(videoPath := data.videoPath) == data
    ensures r.Expanded? ==> r.data.videoPath == PathString(if tried == [] then savePath else KodikOutput(savePath))
  {
  }

  /**
   * The calls of the loop so far, each related by `gave` to its translation,
   * number, state and outcome, none of which saved the video: `dubs` is the
   * list the next call takes its translation from, and `files`, `dirs` the
   * state it starts from.
   */
  ghost predicate TurnsSoFar(gave: (string, nat, Attempted, Outcome) -> bool, d: Downloader, id: string,
                             cacheQuality: string, dubs0: seq<TranslationInfo>, files0: map<Path, Content>,
                             dirs0: set<string>, dubs: seq<TranslationInfo>, tried: seq<string>,
                             outcomes: seq<Outcome>, attempts: seq<Attempted>, files: map<Path, Content>,
                             dirs: set<string>)
  {
    && |dubs0| >= 1 && |dubs| >= 1 && |tried| <= 1
    && AllCalls(tried, attempts, outcomes, gave)
    && (|tried| == 0 ==> dubs == dubs0 && files == files0 && dirs == dirs0)
    && (|tried| == 1 ==>
          && tried[0] == dubs0[0].id && !outcomes[0].Saved?
          && attempts[0].files == files0 && attempts[0].dirs == dirs0
          && dubs == (if |dubs0| > 1 then dubs0[1..] else dubs0)
          && var clear := !outcomes[0].Failed? || |dubs0| > 1;
             && files == FilesLeft(d, id, tried[0], cacheQuality, attempts[0].filesAfter, clear)
             && dirs == DirsLeft(d, id, tried[0], cacheQuality, attempts[0].dirsAfter, clear))
  }

  /**
   * The calls of a finished loop over the voiced translations `dubs0`, each
   * related by `gave` to its translation, number, state and outcome; the loop
   * started from `files0`, `dirs0` and left `files`, `dirs`.
   */
  ghost predicate TurnsEnded(gave: (string, nat, Attempted, Outcome) -> bool, d: Downloader, id: string,
                             savePath: Path, cacheQuality: string, dubs0: seq<TranslationInfo>,
                             files0: map<Path, Content>, dirs0: set<string>, tried: seq<string>,
                             outcomes: seq<Outcome>, attempts: seq<Attempted>, files: map<Path, Content>,
                             dirs: set<string>)
  {
    var n := |tried| - 1;
    && |dubs0| >= 1
    && AllCalls(tried, attempts, outcomes, gave)
    // the first voiced translation, then the next one if there is one
    && 1 <= |tried| <= 2 && tried[0] == dubs0[0].id && (|tried| == 2 ==> tried[1] == SecondChoice(dubs0))
    // the first saved video ends the loop; a first call that raised or returned `None` is retried
    && (|tried| == 1 <==> outcomes[0].Saved?)
    // the first call starts from `files0`; the second from what the first left, its cache cleared
    // unless it raised and no other voiced translation was left
    && attempts[0].files == files0 && attempts[0].dirs == dirs0
    && (|tried| == 2 ==>
          var clear := !outcomes[0].Failed? || |dubs0| > 1;
          && attempts[1].files == FilesLeft(d, id, tried[0], cacheQuality, attempts[0].filesAfter, clear)
          && attempts[1].dirs == DirsLeft(d, id, tried[0], cacheQuality, attempts[0].dirsAfter, clear))
    // the loop leaves what the last call left, with its cache cleared unless it raised
    && files == FilesLeft(d, id, tried[n], cacheQuality, attempts[n].filesAfter, !outcomes[n].Failed?)
    && dirs == DirsLeft(d, id, tried[n], cacheQuality, attempts[n].dirsAfter, !outcomes[n].Failed?)
    && (outcomes[n].Saved? ==> outcomes[n].path == KodikOutput(savePath))
  }

  /**
   * One more call, for `dubs[0]`, from the state the calls so far left,
   * followed by clearing its cache when `clear`: a first call that did not
   * save the video leaves the loop going, a saved video or a second call ends it.
   */
  lemma TurnStep(gave: (string, nat, Attempted, Outcome) -> bool, d: Downloader, id: string, savePath: Path,
                 cacheQuality: string, dubs0: seq<TranslationInfo>, files0: map<Path, Content>, dirs0: set<string>,
                 dubs: seq<TranslationInfo>, tried: seq<string>, outcomes: seq<Outcome>, attempts: seq<Attempted>,
                 a: Attempted, outcome: Outcome, files: map<Path, Content>, dirs: set<string>)
    requires TurnsSoFar(gave, d, id, cacheQuality, dubs0, files0, dirs0, dubs, tried, outcomes, attempts,
                        a.files, a.dirs)
    requires AllCalls(tried + [dubs[0].id], attempts + [a], outcomes + [outcome], gave)
    requires outcome.Saved? ==> outcome.path == KodikOutput(savePath)
    requires var clear := !outcome.Failed? || (|tried| == 0 && |dubs| > 1);
             && files == FilesLeft(d, id, dubs[0].id, cacheQuality, a.filesAfter, clear)
             && dirs == DirsLeft(d, id, dubs[0].id, cacheQuality, a.dirsAfter, clear)
    ensures !outcome.Saved? && |tried| == 0 ==>
              TurnsSoFar(gave, d, id, cacheQuality, dubs0, files0, dirs0, if |dubs| > 1 then dubs[1..] else dubs,
                         tried + [dubs[0].id], outcomes + [outcome], attempts + [a], files, dirs)
    ensures outcome.Saved? || |tried| == 1 ==>
              TurnsEnded(gave, d, id, savePath, cacheQuality, dubs0, files0, dirs0, tried + [dubs[0].id],
                         outcomes + [outcome], attempts + [a], files, dirs)
  {
    var tried', outcomes', attempts' := tried + [dubs[0].id], outcomes + [outcome], attempts + [a];
    assert tried'[|tried|] == dubs[0].id && outcomes'[|tried|] == outcome && attempts'[|tried|] == a;
    if |tried| == 1 {
      assert tried'[0] == tried[0] && outcomes'[0] == outcomes[0] && attempts'[0] == attempts[0];
    }
  }

  /**
   * The `while retries < 2` loop of `expansion_anime_data_from_kodik` over the
   * voiced translations `dubs0`: `tried` lists the translation of every
   * `fast_download` call, `outcomes` what each returned or raised, and
   * `attempts` the state each started from and left.
   */
  method RetryDubs(data: AnimeData, d: Downloader, savePath: Path, fps: Option<string>, withAudio: bool,
                   quality: string, cacheQuality: string, dubs0: seq<TranslationInfo>, worlds: nat -> World)
    returns (r: Expansion, tried: seq<string>, ghost outcomes: seq<Outcome>, ghost attempts: seq<Attempted>)
    requires |dubs0| >= 1
    modifies d
    // each call returned what `fast_download` gives for its translation, its world and the state it started from
    ensures TurnsEnded(GaveRel(d, data.id, savePath, fps, withAudio, quality, worlds), d, data.id, savePath,
                       cacheQuality, dubs0, old(d.files), old(d.dirs), tried, outcomes, attempts, d.files, d.dirs)
    // the last call decides: its video, its exception re-raised, or no translation left
    ensures r == AfterLastAttempt(data, outcomes[|tried| - 1])
    ensures r.Expanded? || r == Raised(NoDownloadableTranslation) ==>
              WorkDirCleared(d, data.id, tried[|tried| - 1], cacheQuality)
    ensures r.Expanded? ==>
              WorkDirKept(d, data.id, tried[|tried| - 1], quality, cacheQuality)
  {
    ghost var gave := GaveRel(d, data.id, savePath, fps, withAudio, quality, worlds);
    var dubs := dubs0;
    var retries := 0;
    var saved: Option<Path> := None;
    tried := [];
    outcomes := [];
    attempts := [];
    while retries < 2
      invariant 0 <= retries <= 2 && |tried| == retries && saved.None?
      invariant retries < 2 ==>
                  TurnsSoFar(gave, d, data.id, cacheQuality, dubs0, old(d.files), old(d.dirs), dubs, tried, outcomes,
                             attempts, d.files, d.dirs)
      invariant retries == 2 ==>
                  && TurnsEnded(gave, d, data.id, savePath, cacheQuality, dubs0, old(d.files), old(d.dirs), tried,
                                outcomes, attempts, d.files, d.dirs)
                  && outcomes[1] == NoSegments && WorkDirCleared(d, data.id, tried[1], cacheQuality)
      decreases 2 - retries
    {
      retries := retries + 1;
      var outcome;
      outcome, dubs, tried, outcomes, attempts :=
        RetryTurn(data.id, d, savePath, fps, withAudio, quality, cacheQuality, dubs0, worlds, old(d.files),
                  old(d.dirs), dubs, tried, outcomes, attempts);
      if outcome.Failed? && retries >= 2 {
        return Raised(DownloadFailed(outcome.failure)), tried, outcomes, attempts;
      }
      if outcome.Saved? {
        saved := Some(outcome.path);
        break;
      }
    }
    if saved.None? {
      return Raised(NoDownloadableTranslation), tried, outcomes, attempts;
    }
    r := Expanded(data.(videoPath := PathString(saved.value)));
  }

  /**
   * One turn of the loop: `fast_download` for `dubs[0]`; unless it saved the
   * video or it raised on the last turn, the cache is cleared and, when
   * another voiced translation is left, the next one is chosen.
   */
  method RetryTurn(id: string, d: Downloader, savePath: Path, fps: Option<string>, withAudio: bool,
                   quality: string, cacheQuality: string, dubs0: seq<TranslationInfo>, worlds: nat -> World,
                   ghost files0: map<Path, Content>, ghost dirs0: set<string>, dubs: seq<TranslationInfo>,
                   tried: seq<string>, ghost outcomes: seq<Outcome>, ghost attempts: seq<Attempted>)
    returns (outcome: Outcome, next: seq<TranslationInfo>, tried': seq<string>, ghost outcomes': seq<Outcome>,
             ghost attempts': seq<Attempted>)
    requires TurnsSoFar(GaveRel(d, id, savePath, fps, withAudio, quality, worlds), d, id, cacheQuality, dubs0,
                        files0, dirs0, dubs, tried, outcomes, attempts, d.files, d.dirs)
    modifies d
    ensures |tried'| == |tried| + 1 && outcomes' == outcomes + [outcome]
    ensures !outcome.Saved? && |tried'| < 2 ==>
              TurnsSoFar(GaveRel(d, id, savePath, fps, withAudio, quality, worlds), d, id, cacheQuality, dubs0,
                         files0, dirs0, next, tried', outcomes', attempts', d.files, d.dirs)
    ensures outcome.Saved? || |tried'| == 2 ==>
              TurnsEnded(GaveRel(d, id, savePath, fps, withAudio, quality, worlds), d, id, savePath, cacheQuality,
                         dubs0, files0, dirs0, tried', outcomes', attempts', d.files, d.dirs)
    ensures !outcome.Failed? ==> WorkDirCleared(d, id, tried'[|tried|], cacheQuality)
    ensures outcome.Saved? ==> WorkDirKept(d, id, tried'[|tried|], quality, cacheQuality)
  {
    ghost var gave := GaveRel(d, id, savePath, fps, withAudio, quality, worlds);
    ghost var a;
    var w := worlds(|tried|);
    outcome, a := Attempt(id, d, savePath, fps, withAudio, quality, cacheQuality, dubs[0].id, w);
    GaveAt(d, id, savePath, fps, withAudio, quality, worlds, |tried|, dubs[0].id, w, a, outcome);
    AllCallsSnoc(tried, attempts, outcomes, gave, dubs[0].id, a, outcome);
    tried', outcomes', attempts' := tried + [dubs[0].id], outcomes + [outcome], attempts + [a];
    next := dubs;
    if !(outcome.Failed? && |tried'| == 2) && !outcome.Saved? && |dubs| > 1 {
      ClearBeforeSwitch(id, d, cacheQuality, dubs[0].id, a, outcome.Failed?);
      next := dubs[1..];
    }
    TurnStep(gave, d, id, savePath, cacheQuality, dubs0, files0, dirs0, dubs, tried, outcomes, attempts, a, outcome,
             d.files, d.dirs);
  }

  /**
   * `clear_title_cache` before switching to the next voiced translation: the
   * cache of `translationId` is gone, whether or not the call had cleared it.
   */
  method ClearBeforeSwitch(id: string, d: Downloader, cacheQuality: string, translationId: string,
                           ghost a: Attempted, ghost failed: bool)
    requires d.files == FilesLeft(d, id, translationId, cacheQuality, a.filesAfter, !failed)
    requires d.dirs == DirsLeft(d, id, translationId, cacheQuality, a.dirsAfter, !failed)
    modifies d
    ensures d.files == FilesLeft(d, id, translationId, cacheQuality, a.filesAfter, true)
    ensures d.dirs == DirsLeft(d, id, translationId, cacheQuality, a.dirsAfter, true)
    ensures WorkDirCleared(d, id, translationId, cacheQuality)
  {
    ClearTwice(a.filesAfter, a.dirsAfter, d.WorkDir(id, "shikimori", 1, translationId, cacheQuality));
    d.ClearTitleCache(id, "shikimori", 1, translationId, cacheQuality);
  }

  /** `expansion_anime_data_from_kodik` as written: the cache is always cleared for quality `"720"`. */
  method ExpandFromKodikAsWritten(data: AnimeData, d: Downloader, savePath: Path, fps: Option<string>, withAudio: bool,
                                  quality: string, available: seq<TranslationInfo>, worlds: nat -> World)
    returns (r: Expansion, tried: seq<string>, ghost outcomes: seq<Outcome>, ghost attempts: seq<Attempted>)
    modifies d
    ensures FromKodik(d, data, savePath, fps, withAudio, quality, "720", available, worlds,
                      old(d.files), old(d.dirs), r, tried, outcomes, attempts, d.files, d.dirs)
    // an existing save path is used as it is; without a voiced translation nothing is downloaded;
    // otherwise the first voiced translation is tried, then the next one if there is one
    ensures Exists(old(d.files), old(d.dirs), savePath) ==>
              r == Expanded(data.(videoPath := PathString(savePath))) && tried == []
    ensures !Exists(old(d.files), old(d.dirs), savePath) && |Dubs(available)| == 0 ==>
              r == Raised(NoDubTranslation) && tried == []
    ensures !Exists(old(d.files), old(d.dirs), savePath) && |Dubs(available)| > 0 ==>
              && 1 <= |tried| <= 2 && tried[0] == Dubs(available)[0].id
              && (|tried| == 2 ==> tried[1] == SecondChoice(Dubs(available)))
              && r == AfterLastAttempt(data, outcomes[|tried| - 1])
    ensures r.Raised? ==> r.error != MalReturnedNothing
    ensures r.Expanded? ==> r.data.(videoPath := data.videoPath) == data
    ensures r.Expanded? ==> r.data.videoPath == PathString(if tried == [] then savePath else KodikOutput(savePath))
    ensures (r.Expanded? || r == Raised(NoDownloadableTranslation)) && tried != [] ==>
              WorkDirCleared(d, data.id, tried[|tried| - 1], "720")
    ensures r.Expanded? && tried != [] ==>
              WorkDirKept(d, data.id, tried[|tried| - 1], quality, "720")
  {
    r, tried, outcomes, attempts := DownloadFirstEpisode(data, d, savePath, fps, withAudio, quality, "720", available, worlds);
    FromKodikFacts(d, data, savePath, fps, withAudio, quality, "720", available, worlds,
                   old(d.files), old(d.dirs), r, tried, outcomes, attempts, d.files, d.dirs);
  }

  /**
   * Two working directories whose digests differ and have the same length
   * (an md5 hex digest always has 32 characters) never contain one another,
   * so clearing one leaves the other.
   */
  lemma WorkDirsApart(d: Downloader, id: string, seriaNum: int, translationId: string, q1: string, q2: string)
    requires var h1 := d.digest(KodikSegments.HashInput(id, "shikimori", seriaNum, translationId, q1));
             var h2 := d.digest(KodikSegments.HashInput(id, "shikimori", seriaNum, translationId, q2));
             |h1| == |h2| && h1 != h2
    ensures !Within(d.WorkDir(id, "shikimori", seriaNum, translationId, q1), d.WorkDir(id, "shikimori", seriaNum, translationId, q2))
  {
    var w1 := d.WorkDir(id, "shikimori", seriaNum, translationId, q1);
    var w2 := d.WorkDir(id, "shikimori", seriaNum, translationId, q2);
    var h1 := d.digest(KodikSegments.HashInput(id, "shikimori", seriaNum, translationId, q1));
    var h2 := d.digest(KodikSegments.HashInput(id, "shikimori", seriaNum, translationId, q2));
    assert w1 == d.tmpRoot + "/" + h1 + "~" && w2 == d.tmpRoot + "/" + h2 + "~";
    assert |w1| == |w2|;
    assert !StartsWith(w1, w2 + "/");
    MiddleDiffers(d.tmpRoot + "/", h1, h2, "~");
  }

  /** Strings that differ only in a middle part of equal length are different. */
  lemma MiddleDiffers(x: string, a: string, b: string, y: string)
    requires |a| == |b| && a != b
    ensures x + a + y != x + b + y
  {
    assert (x + a + y)[|x|..|x| + |a|] == a;
    assert (x + b + y)[|x|..|x| + |b|] == b;
  }

  /**
   * The corrected `expansion_anime_data_from_kodik`: the cache is cleared for
   * the quality that was downloaded, so after a download its working
   * directory is gone.
   */
  method ExpandFromKodik(data: AnimeData, d: Downloader, savePath: Path, fps: Option<string>, withAudio: bool,
                         quality: string, available: seq<TranslationInfo>, worlds: nat -> World)
    returns (r: Expansion, tried: seq<string>, ghost outcomes: seq<Outcome>, ghost attempts: seq<Attempted>)
    modifies d
    ensures FromKodik(d, data, savePath, fps, withAudio, quality, quality, available, worlds,
                      old(d.files), old(d.dirs), r, tried, outcomes, attempts, d.files, d.dirs)
    // an existing save path is used as it is; without a voiced translation nothing is downloaded;
    // otherwise the first voiced translation is tried, then the next one if there is one
    ensures Exists(old(d.files), old(d.dirs), savePath) ==>
              r == Expanded(data.(videoPath := PathString(savePath))) && tried == []
    ensures !Exists(old(d.files), old(d.dirs), savePath) && |Dubs(available)| == 0 ==>
              r == Raised(NoDubTranslation) && tried == []
    ensures !Exists(old(d.files), old(d.dirs), savePath) && |Dubs(available)| > 0 ==>
              && 1 <= |tried| <= 2 && tried[0] == Dubs(available)[0].id
              && (|tried| == 2 ==> tried[1] == SecondChoice(Dubs(available)))
              && r == AfterLastAttempt(data, outcomes[|tried| - 1])
    ensures r.Raised? ==> r.error != MalReturnedNothing
    ensures r.Expanded? ==> r.data.(videoPath := data.videoPath) == data
    ensures r.Expanded? ==> r.data.videoPath == PathString(if tried == [] then savePath else KodikOutput(savePath))
    ensures r.Expanded? && tried != [] ==> WorkDirCleared(d, data.id, tried[|tried| - 1], quality)
  {
    r, tried, outcomes, attempts := DownloadFirstEpisode(data, d, savePath, fps, withAudio, quality, quality, available, worlds);
    FromKodikFacts(d, data, savePath, fps, withAudio, quality, quality, available, worlds,
                   old(d.files), old(d.dirs), r, tried, outcomes, attempts, d.files, d.dirs);
  }

  // ---------------------------------------------------------------------------
  // The batch rules of `main`
  // ---------------------------------------------------------------------------

  /** `filter` of one of the configured filters. */
  type AnimeFilter = ExtendedAnimeData -> bool

  /** `[data for data in batch if str(data["id"]) not in parsed_anime_ids]` */
  function FreshRecords(batch: seq<ShikiRecord>, parsed: set<string>): seq<ShikiRecord>
    decreases |batch|
  {
    if |batch| == 0 then []
    else
      var last := batch[|batch| - 1];
      FreshRecords(batch[..|batch| - 1], parsed) + (if last.id !in parsed then [last] else [])
  }

  /** A record stays exactly when its id was not parsed before. */
  lemma {:induction false} FreshRecordsMembership(batch: seq<ShikiRecord>, parsed: set<string>, rec: ShikiRecord)
    ensures rec in FreshRecords(batch, parsed) <==> rec in batch && rec.id !in parsed
    decreases |batch|
  {
    if |batch| > 0 {
      FreshRecordsMembership(batch[..|batch| - 1], parsed, rec);
      assert batch == batch[..|batch| - 1] + [batch[|batch| - 1]];
    }
  }

  /** The filter loop: `False` at the first filter that rejects, else `True`. */
  function PassesFilters(filters: seq<AnimeFilter>, e: ExtendedAnimeData): bool
    decreases |filters|
  {
    if |filters| == 0 then true
    else if !filters[0](e) then false
    else PassesFilters(filters[1..], e)
  }

  /** A title passes exactly when every filter accepts it. */
  lemma {:induction false} PassesFiltersIff(filters: seq<AnimeFilter>, e: ExtendedAnimeData)
    ensures PassesFilters(filters, e) <==> forall k :: 0 <= k < |filters| ==> filters[k](e)
    decreases |filters|
  {
    if |filters| > 0 {
      PassesFiltersIff(filters[1..], e);
      assert forall k :: 1 <= k < |filters| ==> filters[k] == filters[1..][k - 1];
    }
  }

  /** One iteration of the parse loop: the record to keep, if any. */
  function SelectRecord(rec: ShikiRecord, filters: seq<AnimeFilter>): Option<AnimeData> {
    var p := ParseShikimori(rec, |filters| > 0);
    if |filters| > 0 then
      if p.extended.None? then None
      else if PassesFilters(filters, p.extended.value) then p.base
      else None
    else p.base
  }

  /**
   * Without filters a title is kept when its base record parses; with filters
   * it is kept only when the extended record parses too and every filter
   * accepts it. The kept record is the base record.
   */
  lemma SelectRecordMeaning(rec: ShikiRecord, filters: seq<AnimeFilter>)
    ensures SelectRecord(rec, filters).Some? ==> SelectRecord(rec, filters) == ParseBase(rec)
    ensures |filters| == 0 ==> SelectRecord(rec, filters) == ParseBase(rec)
    ensures |filters| > 0 ==>
              (SelectRecord(rec, filters).Some? <==>
                 ParseBase(rec).Some? && RelatedTitles(rec.related).Some?
                 && forall k :: 0 <= k < |filters| ==>
                      filters[k](ExtendedAnimeData(ParseBase(rec).value, RelatedTitles(rec.related).value)))
  {
    var p := ParseShikimori(rec, |filters| > 0);
    if p.extended.Some? {
      PassesFiltersIff(filters, p.extended.value);
    }
  }

  /** The records the parse loop keeps, in order. */
  function Selected(recs: seq<ShikiRecord>, filters: seq<AnimeFilter>): seq<AnimeData>
    decreases |recs|
  {
    if |recs| == 0 then []
    else
      var s := SelectRecord(recs[|recs| - 1], filters);
      Selected(recs[..|recs| - 1], filters) + (if s.Some? then [s.value] else [])
  }

  /** Every kept record comes from a record of the batch with the same id. */
  lemma {:induction false} SelectedFromRecords(recs: seq<ShikiRecord>, filters: seq<AnimeFilter>, a: AnimeData)
    requires a in Selected(recs, filters)
    ensures exists rec :: rec in recs && rec.id == a.id && SelectRecord(rec, filters) == Some(a)
    decreases |recs|
  {
    var prefix := recs[..|recs| - 1];
    var last := recs[|recs| - 1];
    if a in Selected(prefix, filters) {
      SelectedFromRecords(prefix, filters, a);
      var rec :| rec in prefix && rec.id == a.id && SelectRecord(rec, filters) == Some(a);
      assert rec in recs;
    } else {
      assert SelectRecord(last, filters) == Some(a);
      assert ParseBase(last) == Some(a);
    }
  }

  /** No title whose id was already parsed is parsed again. */
  lemma SelectedAreFresh(batch: seq<ShikiRecord>, parsed: set<string>, filters: seq<AnimeFilter>, a: AnimeData)
    requires a in Selected(FreshRecords(batch, parsed), filters)
    ensures a.id !in parsed
  {
    SelectedFromRecords(FreshRecords(batch, parsed), filters, a);
    var rec :| rec in FreshRecords(batch, parsed) && rec.id == a.id && SelectRecord(rec, filters) == Some(a);
    FreshRecordsMembership(batch, parsed, rec);
  }

  /** The parse loop over the fresh records of one batch. */
  method ParseBatch(batch: seq<ShikiRecord>, parsed: set<string>, filters: seq<AnimeFilter>) returns (kept: seq<AnimeData>)
    ensures kept == Selected(FreshRecords(batch, parsed), filters)
    ensures forall k :: 0 <= k < |kept| ==> kept[k].id !in parsed
  {
    var newRecords := FreshRecords(batch, parsed);
    kept := [];
    var i := 0;
    while i < |newRecords|
      invariant 0 <= i <= |newRecords|
      invariant kept == Selected(newRecords[..i], filters)
    {
      assert newRecords[..i + 1][..i] == newRecords[..i];
      var s := SelectRecord(newRecords[i], filters);
      if s.Some? {
        kept := kept + [s.value];
      }
      i := i + 1;
    }
    assert newRecords[..i] == newRecords;
    forall k | 0 <= k < |kept|
      ensures kept[k].id !in parsed
    {
      SelectedAreFresh(batch, parsed, filters, kept[k]);
    }
  }

  /** The characters `re.sub(r'[\\/:"*?<>|.,]+', "", name)` removes. */
  const UnsafeChars: set<char> := {'\\', '/', ':', '"', '*', '?', '<', '>', '|', '.', ','}

  /** The file-name-safe title. */
  function SafeName(name: string): (r: string)
    ensures forall k :: 0 <= k < |r| ==> r[k] !in UnsafeChars
    ensures |r| <= |name|
  {
    RemoveChars(name, UnsafeChars)
  }

  /** A safe name is its own safe name, and a name with no unsafe character is left as it is. */
  lemma SafeNameStable(name: string)
    ensures SafeName(SafeName(name)) == SafeName(name)
    ensures (forall k :: 0 <= k < |name| ==> name[k] !in UnsafeChars) ==> SafeName(name) == name
  {
    RemoveCharsIdempotent(name, UnsafeChars);
    if forall k :: 0 <= k < |name| ==> name[k] !in UnsafeChars {
      RemoveCharsKeepsOthers(name, UnsafeChars);
    }
  }

  /**
   * Only the unsafe characters are removed: every other character keeps its
   * count, and the safe name of a concatenation is the concatenation of the
   * safe names, so the kept characters stay in their order.
   */
  lemma SafeNameKeepsOthers(name: string, rest: string, c: char)
    ensures c !in UnsafeChars ==> multiset(SafeName(name))[c] == multiset(name)[c]
    ensures c in UnsafeChars ==> c !in multiset(SafeName(name))
    ensures SafeName(name + rest) == SafeName(name) + SafeName(rest)
  {
    RemoveCharsCounts(name, UnsafeChars, c);
    RemoveCharsConcat(name, rest, UnsafeChars);
  }

  /** `Path(save_root, "videos", str(id), f"{safety_name}_S1_E1_{quality}.mp4")` */
  function VideoSavePath(saveRoot: string, id: string, name: string, quality: string): Path {
    Path(saveRoot + "/videos/" + id, SafeName(name) + "_S1_E1_" + quality + ".mp4")
  }

  /** The downloader writes the video exactly at the save path `main` chose. */
  lemma KodikOutputIsSavePath(saveRoot: string, id: string, name: string, quality: string)
    ensures KodikOutput(VideoSavePath(saveRoot, id, name, quality)) == VideoSavePath(saveRoot, id, name, quality)
  {
    var base := SafeName(name) + "_S1_E1_" + quality;
    assert base[|SafeName(name)|] == '_';
    SuffixOfExtension(base, ".mp4");
    assert SafeName(name) + "_S1_E1_" + quality + ".mp4" == base + ".mp4";
  }

  /** `Path(video_path).relative_to(save_root)` for a path below `save_root`. */
  function RelativeTo(path: string, root: string): (r: string)
    requires StartsWith(path, root + "/")
    ensures root + "/" + r == path
  {
    path[|root| + 1..]
  }

  /** The stored video path of a title: relative to the dataset root. */
  function StoredVideoPath(id: string, name: string, quality: string): string {
    "videos/" + id + "/" + SafeName(name) + "_S1_E1_" + quality + ".mp4"
  }

  /** `max_samples and len(parsed_anime_ids) > max_samples` */
  function ShouldStop(maxSamples: Option<int>, count: nat): (r: bool)
    // no limit, or a limit of 0, never stops
    ensures maxSamples.None? || maxSamples == Some(0) ==> !r
    // the comparison is strict: reaching the limit exactly does not stop
    ensures maxSamples.Some? && count <= maxSamples.value ==> !r
    ensures maxSamples.Some? && maxSamples.value != 0 && count > maxSamples.value ==> r
  {
    maxSamples.Some? && maxSamples.value != 0 && count > maxSamples.value
  }

  /**
   * What `_expansion_anime_data` does for title `a`, taking the files and
   * directories from `files0`, `dirs0` to `files1`, `dirs1`: without a
   * synopsis the title is dropped before any download, otherwise the Kodik
   * loop runs on the title with its synopsis, at the title's save path.
   */
  ghost predicate TitleExpanded(d: Downloader, a: AnimeData, saveRoot: string, fps: Option<string>, withAudio: bool,
                                quality: string, synopsis: Option<string>, available: seq<TranslationInfo>,
                                worlds: nat -> World, files0: map<Path, Content>, dirs0: set<string>, r: Expansion,
                                tried: seq<string>, outcomes: seq<Outcome>, attempts: seq<Attempted>,
                                files1: map<Path, Content>, dirs1: set<string>)
  {
    if synopsis.None? then
      r == Raised(MalReturnedNothing) && tried == [] && outcomes == [] && attempts == []
      && files1 == files0 && dirs1 == dirs0
    else
      FromKodik(d, ExpandFromMal(a, synopsis).data, VideoSavePath(saveRoot, a.id, a.name, quality), fps, withAudio,
                quality, quality, available, worlds, files0, dirs0, r, tried, outcomes, attempts, files1, dirs1)
  }

  /**
   * `_expansion_anime_data`: the synopsis from MyAnimeList, then the first
   * episode from Kodik at the title's save path.
   */
  method ExpandTitle(a: AnimeData, d: Downloader, saveRoot: string, fps: Option<string>, withAudio: bool,
                     quality: string, synopsis: Option<string>, available: seq<TranslationInfo>, worlds: nat -> World)
    returns (r: Expansion, ghost tried: seq<string>, ghost outcomes: seq<Outcome>, ghost attempts: seq<Attempted>)
    modifies d
    ensures TitleExpanded(d, a, saveRoot, fps, withAudio, quality, synopsis, available, worlds,
                          old(d.files), old(d.dirs), r, tried, outcomes, attempts, d.files, d.dirs)
    // the title is dropped before any download exactly when MyAnimeList returned nothing
    ensures r == Raised(MalReturnedNothing) <==> synopsis.None?
    // with a synopsis: an existing video is used as it is; without a voiced translation nothing is downloaded;
    // otherwise the first voiced translation is tried, then the next one if there is one
    ensures var savePath := VideoSavePath(saveRoot, a.id, a.name, quality);
            synopsis.Some? && Exists(old(d.files), old(d.dirs), savePath) ==>
              r == Expanded(ExpandFromMal(a, synopsis).data.(videoPath := PathString(savePath))) && tried == []
    ensures var savePath := VideoSavePath(saveRoot, a.id, a.name, quality);
            synopsis.Some? && !Exists(old(d.files), old(d.dirs), savePath) && |Dubs(available)| == 0 ==>
              r == Raised(NoDubTranslation) && tried == []
    ensures var savePath := VideoSavePath(saveRoot, a.id, a.name, quality);
            synopsis.Some? && !Exists(old(d.files), old(d.dirs), savePath) && |Dubs(available)| > 0 ==>
              && 1 <= |tried| <= 2 && tried[0] == Dubs(available)[0].id
              && (|tried| == 2 ==> tried[1] == SecondChoice(Dubs(available)))
              && r == AfterLastAttempt(ExpandFromMal(a, synopsis).data, outcomes[|tried| - 1])
    // an expanded title is the title with its trimmed synopsis and its video at its save path
    ensures r.Expanded? ==> synopsis.Some?
    ensures r.Expanded? ==> r.data == a.(description := TrimSynopsis(synopsis.value),
                                          videoPath := PathString(VideoSavePath(saveRoot, a.id, a.name, quality)))
  {
    var savePath := VideoSavePath(saveRoot, a.id, a.name, quality);
    r := ExpandFromMal(a, synopsis);
    tried, outcomes, attempts := [], [], [];
    if r.Raised? {
      return;
    }
    var names;
    r, names, outcomes, attempts := ExpandFromKodik(r.data, d, savePath, fps, withAudio, quality, available, worlds);
    tried := names;
    KodikOutputIsSavePath(saveRoot, a.id, a.name, quality);
  }

  /** The ids of the collected titles. */
  function IdsOf(animes: seq<AnimeData>): (r: set<string>)
    ensures forall k :: 0 <= k < |animes| ==> animes[k].id in r
    decreases |animes|
  {
    if |animes| == 0 then {} else IdsOf(animes[..|animes| - 1]) + {animes[|animes| - 1].id}
  }

  /** Every collected title was stored with its relative video path. */
  ghost predicate StoredPaths(animes: seq<AnimeData>, quality: string) {
    forall k :: 0 <= k < |animes| ==> animes[k].videoPath == StoredVideoPath(animes[k].id, animes[k].name, quality)
  }

  /** Where `main` stores the video of a title: its path relative to the dataset root. */
  lemma RelativeVideoPath(saveRoot: string, id: string, name: string, quality: string)
    ensures StartsWith(PathString(VideoSavePath(saveRoot, id, name, quality)), saveRoot + "/")
    ensures RelativeTo(PathString(VideoSavePath(saveRoot, id, name, quality)), saveRoot) == StoredVideoPath(id, name, quality)
  {
    var path := PathString(VideoSavePath(saveRoot, id, name, quality));
    assert path == (saveRoot + "/") + StoredVideoPath(id, name, quality);
  }

  /** Appending a title keeps the ids and the stored paths in step. */
  lemma StoreStep(known: set<string>, animes: seq<AnimeData>, stored: AnimeData, quality: string)
    requires forall k :: 0 <= k < |animes| ==> animes[k].id !in known
    requires StoredPaths(animes, quality)
    requires stored.id !in known && stored.videoPath == StoredVideoPath(stored.id, stored.name, quality)
    ensures known + IdsOf(animes + [stored]) == known + IdsOf(animes) + {stored.id}
    ensures forall k :: 0 <= k < |animes + [stored]| ==> (animes + [stored])[k].id !in known
    ensures StoredPaths(animes + [stored], quality)
  {
    assert (animes + [stored])[..|animes|] == animes;
  }

  /** The record `main` stores for title `a` once both expansions succeeded. */
  function StoredRecord(a: AnimeData, synopsis: string, quality: string): AnimeData {
    a.(description := TrimSynopsis(synopsis), videoPath := StoredVideoPath(a.id, a.name, quality))
  }

  /**
   * The expansion of one title: what it ended with, the `fast_download` calls
   * it made, and the files and directories it started from and left.
   */
  datatype TitleRun = TitleRun(e: Expansion, tried: seq<string>, outcomes: seq<Outcome>, attempts: seq<Attempted>,
                               files: map<Path, Content>, dirs: set<string>,
                               filesAfter: map<Path, Content>, dirsAfter: set<string>)

  /**
   * `runs[k]` is the expansion of `kept[k]`, with the synopsis, translations
   * and `fast_download` results the sources give for that title.
   */
  ghost predicate ExpansionsOf(runs: seq<TitleRun>, kept: seq<AnimeData>, d: Downloader, saveRoot: string,
                               fps: Option<string>, withAudio: bool, quality: string, synopses: string -> Option<string>,
                               translations: string -> seq<TranslationInfo>, worlds: string -> nat -> World) {
    |runs| == |kept| && ExpandedPrefix(runs, kept, d, saveRoot, fps, withAudio, quality, synopses, translations, worlds)
  }

  /**
   * `runs` records the expansions of the first `|runs|` titles of `kept`;
   * what each success is, the part storing depends on, is kept beside the
   * whole relation so that storing can be reasoned about on its own.
   */
  ghost predicate ExpandedPrefix(runs: seq<TitleRun>, kept: seq<AnimeData>, d: Downloader, saveRoot: string,
                                 fps: Option<string>, withAudio: bool, quality: string, synopses: string -> Option<string>,
                                 translations: string -> seq<TranslationInfo>, worlds: string -> nat -> World) {
    && Pairwise(runs, kept, ExpandedRel(d, saveRoot, fps, withAudio, quality, synopses, translations, worlds))
    && Pairwise(runs, kept, SucceededRel(saveRoot, quality, synopses))
  }

  /** `rel` relates each of `xs` to the element of `ys` at the same index. */
  ghost predicate Pairwise<T, U>(xs: seq<T>, ys: seq<U>, rel: (T, U) -> bool) {
    |xs| <= |ys| && forall k {:trigger rel(xs[k], ys[k])} :: 0 <= k < |xs| ==> rel(xs[k], ys[k])
  }

  /** `ExpandedFrom` as a relation between a run and its title, each title with its own sources. */
  ghost function ExpandedRel(d: Downloader, saveRoot: string, fps: Option<string>, withAudio: bool, quality: string,
                             synopses: string -> Option<string>, translations: string -> seq<TranslationInfo>,
                             worlds: string -> nat -> World): (TitleRun, AnimeData) -> bool
  {
    (run: TitleRun, a: AnimeData) =>
      ExpandedFrom(d, run, a, saveRoot, fps, withAudio, quality, synopses(a.malId), translations(a.id), worlds(a.id))
  }

  /** `SucceededAs` as a relation between a run and its title. */
  ghost function SucceededRel(saveRoot: string, quality: string, synopses: string -> Option<string>)
    : (TitleRun, AnimeData) -> bool
  {
    (run: TitleRun, a: AnimeData) => SucceededAs(run.e, a, saveRoot, quality, synopses(a.malId))
  }

  /** An expansion of `a` that succeeded is `a` with the trimmed `synopsis` and its video under `saveRoot`. */
  ghost predicate SucceededAs(e: Expansion, a: AnimeData, saveRoot: string, quality: string, synopsis: Option<string>) {
    e.Expanded? ==>
      && synopsis.Some?
      && e.data == a.(description := TrimSynopsis(synopsis.value),
                      videoPath := PathString(VideoSavePath(saveRoot, a.id, a.name, quality)))
  }

  /**
   * `run` is what `_expansion_anime_data` does for title `a` from the files
   * and directories it started from: dropped exactly when MyAnimeList
   * returned nothing, otherwise the first episode from Kodik with the
   * `fast_download` calls as `TitleExpanded` states them; a success is `a`
   * with the trimmed `synopsis` and its video under `saveRoot`.
   */
  ghost predicate ExpandedFrom(d: Downloader, run: TitleRun, a: AnimeData, saveRoot: string, fps: Option<string>,
                               withAudio: bool, quality: string, synopsis: Option<string>,
                               available: seq<TranslationInfo>, worlds: nat -> World) {
    && TitleExpanded(d, a, saveRoot, fps, withAudio, quality, synopsis, available, worlds, run.files, run.dirs,
                     run.e, run.tried, run.outcomes, run.attempts, run.filesAfter, run.dirsAfter)
    && (run.e == Raised(MalReturnedNothing) <==> synopsis.None?)
    && SucceededAs(run.e, a, saveRoot, quality, synopsis)
  }

  /** The runs follow one another: each starts from the files and directories the one before it left. */
  ghost predicate Chained(runs: seq<TitleRun>, files0: map<Path, Content>, dirs0: set<string>,
                          files1: map<Path, Content>, dirs1: set<string>)
    decreases |runs|
  {
    if |runs| == 0 then files1 == files0 && dirs1 == dirs0
    else
      var n := |runs| - 1;
      && Chained(runs[..n], files0, dirs0, runs[n].files, runs[n].dirs)
      && runs[n].filesAfter == files1 && runs[n].dirsAfter == dirs1
  }

  /** A run that starts where the chain ends extends it. */
  lemma ChainedSnoc(runs: seq<TitleRun>, run: TitleRun, files0: map<Path, Content>, dirs0: set<string>)
    requires Chained(runs, files0, dirs0, run.files, run.dirs)
    ensures Chained(runs + [run], files0, dirs0, run.filesAfter, run.dirsAfter)
  {
    assert (runs + [run])[..|runs|] == runs;
  }

  /** Two chains, the second starting where the first ends, make one. */
  lemma {:induction false} ChainedConcat(xs: seq<TitleRun>, ys: seq<TitleRun>, files0: map<Path, Content>,
                                         dirs0: set<string>, files1: map<Path, Content>, dirs1: set<string>,
                                         files2: map<Path, Content>, dirs2: set<string>)
    requires Chained(xs, files0, dirs0, files1, dirs1) && Chained(ys, files1, dirs1, files2, dirs2)
    ensures Chained(xs + ys, files0, dirs0, files2, dirs2)
    decreases |ys|
  {
    if |ys| == 0 {
      assert xs + ys == xs;
    } else {
      var n := |ys| - 1;
      ChainedConcat(xs, ys[..n], files0, dirs0, files1, dirs1, ys[n].files, ys[n].dirs);
      assert (xs + ys)[..|xs| + n] == xs + ys[..n];
      assert (xs + ys)[|xs| + n] == ys[n];
    }
  }

  /** The runs of every batch `log` records, in order. */
  function AllRuns(log: seq<seq<TitleRun>>): (r: seq<TitleRun>)
    decreases |log|
  {
    if |log| == 0 then [] else AllRuns(log[..|log| - 1]) + log[|log| - 1]
  }

  /** An expanded record as `main` appends it: with its video path relative to the dataset root. */
  function Relativised(e: AnimeData, quality: string): AnimeData {
    e.(videoPath := StoredVideoPath(e.id, e.name, quality))
  }

  /** The records appended for a batch: every expanded title, in order, with its video path made relative. */
  function StoredRecords(runs: seq<TitleRun>, quality: string): (r: seq<AnimeData>)
    ensures |r| <= |runs|
    decreases |runs|
  {
    if |runs| == 0 then []
    else
      var n := |runs| - 1;
      StoredRecords(runs[..n], quality) + Appended(runs[n].e, quality)
  }

  /** What `main` appends for one title's expansion: its relativised record when it succeeded, nothing otherwise. */
  function Appended(e: Expansion, quality: string): seq<AnimeData> {
    if e.Expanded? then [Relativised(e.data, quality)] else []
  }

  /** Regrouping the records stored so far. */
  lemma AppendAfter(animes0: seq<AnimeData>, prior: seq<AnimeData>, added: seq<AnimeData>)
    ensures (animes0 + prior) + added == animes0 + (prior + added)
  {
  }

  /** `a` is what `main` appended for the successful expansion `runs[k]`. */
  ghost predicate StoredAt(runs: seq<TitleRun>, quality: string, a: AnimeData, k: int) {
    0 <= k < |runs| && runs[k].e.Expanded? && a == Relativised(runs[k].e.data, quality)
  }

  /** The records of a batch are exactly its successful expansions. */
  lemma StoredRecordsMembership(runs: seq<TitleRun>, quality: string, a: AnimeData)
    ensures a in StoredRecords(runs, quality) <==> exists k :: StoredAt(runs, quality, a, k)
  {
    if a in StoredRecords(runs, quality) {
      StoredRecordsOnly(runs, quality, a);
    }
    if exists k :: StoredAt(runs, quality, a, k) {
      var k :| StoredAt(runs, quality, a, k);
      StoredRecordsHas(runs, quality, k);
    }
  }

  /** Each record of a batch comes from one of its successful expansions. */
  lemma {:induction false} StoredRecordsOnly(runs: seq<TitleRun>, quality: string, a: AnimeData)
    requires a in StoredRecords(runs, quality)
    ensures exists k :: StoredAt(runs, quality, a, k)
    decreases |runs|
  {
    var n := |runs| - 1;
    var prefix := runs[..n];
    if a in StoredRecords(prefix, quality) {
      StoredRecordsOnly(prefix, quality, a);
      var k :| StoredAt(prefix, quality, a, k);
      assert prefix[k].e == runs[k].e;
      assert StoredAt(runs, quality, a, k);
    } else {
      assert StoredAt(runs, quality, a, n);
    }
  }

  /** Each successful expansion of a batch is stored. */
  lemma {:induction false} StoredRecordsHas(runs: seq<TitleRun>, quality: string, k: int)
    requires 0 <= k < |runs| && runs[k].e.Expanded?
    ensures Relativised(runs[k].e.data, quality) in StoredRecords(runs, quality)
    decreases |runs|
  {
    var n := |runs| - 1;
    if k < n {
      var prefix := runs[..n];
      assert prefix[k].e == runs[k].e;
      StoredRecordsHas(prefix, quality, k);
    }
  }

  /** `a` is the record stored for `kept[k]`, whose expansion succeeded. */
  ghost predicate StoredFrom(runs: seq<TitleRun>, kept: seq<AnimeData>, synopses: string -> Option<string>,
                             quality: string, a: AnimeData, k: int) {
    && 0 <= k < |kept| && k < |runs| && runs[k].e.Expanded? && synopses(kept[k].malId).Some?
    && a == StoredRecord(kept[k], synopses(kept[k].malId).value, quality)
  }

  /**
   * A batch stores exactly the titles whose expansions succeeded, each with
   * its trimmed synopsis and its relative video path.
   */
  lemma StoredRecordsAre(runs: seq<TitleRun>, kept: seq<AnimeData>, d: Downloader, saveRoot: string,
                         fps: Option<string>, withAudio: bool, quality: string, synopses: string -> Option<string>,
                         translations: string -> seq<TranslationInfo>, worlds: string -> nat -> World, a: AnimeData)
    requires ExpansionsOf(runs, kept, d, saveRoot, fps, withAudio, quality, synopses, translations, worlds)
    ensures a in StoredRecords(runs, quality) <==> exists k :: StoredFrom(runs, kept, synopses, quality, a, k)
  {
    var rel := SucceededRel(saveRoot, quality, synopses);
    StoredRecordsMembership(runs, quality, a);
    if exists k :: StoredAt(runs, quality, a, k) {
      var k :| StoredAt(runs, quality, a, k);
      assert rel(runs[k], kept[k]);
      StoredOne(runs[k].e, kept[k], saveRoot, quality, synopses(kept[k].malId));
      assert StoredFrom(runs, kept, synopses, quality, a, k);
    }
    if exists k :: StoredFrom(runs, kept, synopses, quality, a, k) {
      var k :| StoredFrom(runs, kept, synopses, quality, a, k);
      assert rel(runs[k], kept[k]);
      StoredOne(runs[k].e, kept[k], saveRoot, quality, synopses(kept[k].malId));
      assert StoredAt(runs, quality, a, k);
    }
  }

  /** An expanded title is stored as its `StoredRecord`. */
  lemma StoredOne(e: Expansion, a: AnimeData, saveRoot: string, quality: string, synopsis: Option<string>)
    requires e.Expanded? && synopsis.Some?
    requires e.data == a.(description := TrimSynopsis(synopsis.value),
                          videoPath := PathString(VideoSavePath(saveRoot, a.id, a.name, quality)))
    ensures Relativised(e.data, quality) == StoredRecord(a, synopsis.value, quality)
  {
  }

  /**
   * The loop over one batch's completed expansions: each title that was
   * expanded is recorded under its id and stored with its relative video path.
   * `runs` records each title's expansion, one after the other.
   */
  method StoreBatch(kept: seq<AnimeData>, known: set<string>, ids0: set<string>, animes0: seq<AnimeData>,
                    saveRoot: string, fps: Option<string>, withAudio: bool, quality: string, d: Downloader,
                    synopses: string -> Option<string>, translations: string -> seq<TranslationInfo>,
                    worlds: string -> nat -> World)
    returns (ids: set<string>, animes: seq<AnimeData>, ghost runs: seq<TitleRun>)
    requires ids0 == known + IdsOf(animes0)
    requires forall k :: 0 <= k < |animes0| ==> animes0[k].id !in known
    requires forall k :: 0 <= k < |kept| ==> kept[k].id !in known
    requires StoredPaths(animes0, quality)
    modifies d
    // each title was expanded once, in order, each from the state the one before it left
    ensures ExpansionsOf(runs, kept, d, saveRoot, fps, withAudio, quality, synopses, translations, worlds)
    ensures Chained(runs, old(d.files), old(d.dirs), d.files, d.dirs)
    // the expanded ones were appended in order
    ensures animes == animes0 + StoredRecords(runs, quality)
    ensures ids == known + IdsOf(animes)
    ensures forall k :: 0 <= k < |animes| ==> animes[k].id !in known
    ensures StoredPaths(animes, quality)
  {
    ids, animes := ids0, animes0;
    runs := [];
    var i := 0;
    while i < |kept|
      invariant 0 <= i <= |kept|
      invariant |runs| == i && ExpandedPrefix(runs, kept, d, saveRoot, fps, withAudio, quality, synopses, translations, worlds)
      invariant Chained(runs, old(d.files), old(d.dirs), d.files, d.dirs)
      invariant animes == animes0 + StoredRecords(runs, quality)
      invariant ids == known + IdsOf(animes)
      invariant forall k :: 0 <= k < |animes| ==> animes[k].id !in known
      invariant StoredPaths(animes, quality)
    {
      ghost var prior := StoredRecords(runs, quality);
      ghost var run;
      ids, animes, run := StoreTitle(kept, i, runs, known, ids, animes, saveRoot, fps, withAudio, quality, d,
                                     synopses, translations, worlds, old(d.files), old(d.dirs));
      StoredRecordsSnoc(runs, run, quality);
      runs := runs + [run];
      AppendAfter(animes0, prior, Appended(run.e, quality));
      i := i + 1;
    }
  }

  /**
   * One turn of the loop over a batch: the next title, `kept[i]`, is
   * expanded from the state the earlier ones left and, when that succeeded,
   * recorded under its id and stored with its relative video path.
   */
  method StoreTitle(kept: seq<AnimeData>, i: nat, ghost runs: seq<TitleRun>, known: set<string>, ids0: set<string>,
                    animes0: seq<AnimeData>, saveRoot: string, fps: Option<string>, withAudio: bool, quality: string,
                    d: Downloader, synopses: string -> Option<string>, translations: string -> seq<TranslationInfo>,
                    worlds: string -> nat -> World, ghost files0: map<Path, Content>, ghost dirs0: set<string>)
    returns (ids: set<string>, animes: seq<AnimeData>, ghost run: TitleRun)
    requires i == |runs| < |kept| && kept[i].id !in known
    requires ExpandedPrefix(runs, kept, d, saveRoot, fps, withAudio, quality, synopses, translations, worlds)
    requires Chained(runs, files0, dirs0, d.files, d.dirs)
    requires ids0 == known + IdsOf(animes0)
    requires forall k :: 0 <= k < |animes0| ==> animes0[k].id !in known
    requires StoredPaths(animes0, quality)
    modifies d
    // the title's expansion is recorded after the earlier ones, starting from the state they left
    ensures ExpandedPrefix(runs + [run], kept, d, saveRoot, fps, withAudio, quality, synopses, translations, worlds)
    ensures Chained(runs + [run], files0, dirs0, d.files, d.dirs)
    // an expanded title is appended with its relative video path and its id is recorded
    ensures animes == animes0 + Appended(run.e, quality)
    ensures ids == known + IdsOf(animes)
    ensures forall k :: 0 <= k < |animes| ==> animes[k].id !in known
    ensures StoredPaths(animes, quality)
  {
    ids, animes := ids0, animes0;
    var a := kept[i];
    var e;
    e, run := ExpandAndRecord(kept, i, runs, d, saveRoot, fps, withAudio, quality, synopses, translations, worlds,
                              files0, dirs0);
    if e.Expanded? {
      RelativeVideoPath(saveRoot, a.id, a.name, quality);
      var stored := e.data.(videoPath := RelativeTo(e.data.videoPath, saveRoot));
      StoreStep(known, animes, stored, quality);
      ids := ids + {stored.id};
      animes := animes + [stored];
    }
  }

  /**
   * `ExpandTitle` for the next title, `kept[i]`, with the synopsis,
   * translations and `fast_download` results the sources give for it; its
   * calls and the states before and after it are recorded as the next run.
   */
  method ExpandAndRecord(kept: seq<AnimeData>, i: nat, ghost runs: seq<TitleRun>, d: Downloader, saveRoot: string,
                         fps: Option<string>, withAudio: bool, quality: string, synopses: string -> Option<string>,
                         translations: string -> seq<TranslationInfo>, worlds: string -> nat -> World,
                         ghost files0: map<Path, Content>, ghost dirs0: set<string>)
    returns (e: Expansion, ghost run: TitleRun)
    requires i == |runs| < |kept|
    requires ExpandedPrefix(runs, kept, d, saveRoot, fps, withAudio, quality, synopses, translations, worlds)
    requires Chained(runs, files0, dirs0, d.files, d.dirs)
    modifies d
    ensures run.e == e
    ensures SucceededAs(e, kept[i], saveRoot, quality, synopses(kept[i].malId))
    ensures ExpandedPrefix(runs + [run], kept, d, saveRoot, fps, withAudio, quality, synopses, translations, worlds)
    ensures Chained(runs + [run], files0, dirs0, d.files, d.dirs)
  {
    var a := kept[i];
    ghost var files1, dirs1 := d.files, d.dirs;
    ghost var tried, outcomes, attempts;
    e, tried, outcomes, attempts := ExpandTitle(a, d, saveRoot, fps, withAudio, quality, synopses(a.malId),
                                                translations(a.id), worlds(a.id));
    run := TitleRun(e, tried, outcomes, attempts, files1, dirs1, d.files, d.dirs);
    RecordStep(runs, kept, run, d, saveRoot, fps, withAudio, quality, synopses, translations, worlds);
    ChainedSnoc(runs, run, files0, dirs0);
  }

  /** Recording the expansion of the next title extends the record of the batch by one title. */
  lemma RecordStep(runs: seq<TitleRun>, kept: seq<AnimeData>, run: TitleRun, d: Downloader, saveRoot: string,
                   fps: Option<string>, withAudio: bool, quality: string, synopses: string -> Option<string>,
                   translations: string -> seq<TranslationInfo>, worlds: string -> nat -> World)
    requires |runs| < |kept|
    requires ExpandedPrefix(runs, kept, d, saveRoot, fps, withAudio, quality, synopses, translations, worlds)
    requires var a := kept[|runs|];
             ExpandedFrom(d, run, a, saveRoot, fps, withAudio, quality, synopses(a.malId), translations(a.id), worlds(a.id))
    ensures ExpandedPrefix(runs + [run], kept, d, saveRoot, fps, withAudio, quality, synopses, translations, worlds)
  {
    var rel := ExpandedRel(d, saveRoot, fps, withAudio, quality, synopses, translations, worlds);
    var succeeded := SucceededRel(saveRoot, quality, synopses);
    assert rel(run, kept[|runs|]);
    assert succeeded(run, kept[|runs|]);
    PairwiseSnoc(runs, kept, run, rel);
    PairwiseSnoc(runs, kept, run, succeeded);
  }

  /** A relation that holds pairwise keeps holding when both sides grow by a related pair. */
  lemma PairwiseSnoc<T, U>(xs: seq<T>, ys: seq<U>, x: T, rel: (T, U) -> bool)
    requires |xs| < |ys| && Pairwise(xs, ys, rel) && rel(x, ys[|xs|])
    ensures Pairwise(xs + [x], ys, rel)
  {
    var xs' := xs + [x];
    forall k | 0 <= k < |xs'|
      ensures rel(xs'[k], ys[k])
    {
      if k < |xs| {
        assert xs'[k] == xs[k];
        assert rel(xs[k], ys[k]);
      }
    }
  }

  /** The stored records grow by what one more expansion appends. */
  lemma StoredRecordsSnoc(runs: seq<TitleRun>, run: TitleRun, quality: string)
    ensures StoredRecords(runs + [run], quality) == StoredRecords(runs, quality) + Appended(run.e, quality)
  {
    assert (runs + [run])[..|runs|] == runs;
  }

  /** The titles stored over the batches whose expansions `log` records, in order. */
  function AllStored(log: seq<seq<TitleRun>>, quality: string): (r: seq<AnimeData>)
    decreases |log|
  {
    if |log| == 0 then [] else AllStored(log[..|log| - 1], quality) + StoredRecords(log[|log| - 1], quality)
  }

  /**
   * Batch `b` read a non-empty page, kept the fresh titles the filters accept
   * (fresh: not among the known ids and those stored by the earlier batches),
   * and expanded each of them.
   */
  ghost predicate BatchRecord(pages: seq<seq<ShikiRecord>>, known: set<string>, filters: seq<AnimeFilter>,
                              picked: seq<seq<AnimeData>>, log: seq<seq<TitleRun>>, b: int, d: Downloader,
                              saveRoot: string, fps: Option<string>, withAudio: bool, quality: string,
                              synopses: string -> Option<string>, translations: string -> seq<TranslationInfo>,
                              worlds: string -> nat -> World) {
    && 0 <= b < |pages| && b < |picked| && b < |log| && |pages[b]| > 0
    && picked[b] == Selected(FreshRecords(pages[b], known + IdsOf(AllStored(log[..b], quality))), filters)
    && ExpansionsOf(log[b], picked[b], d, saveRoot, fps, withAudio, quality, synopses, translations, worlds)
  }

  /** After the first `b` batches the stop rule had not fired. */
  ghost predicate Unstopped(maxSamples: Option<int>, known: set<string>, log: seq<seq<TitleRun>>, b: int, quality: string)
    requires 0 <= b <= |log|
  {
    !ShouldStop(maxSamples, |known + IdsOf(AllStored(log[..b], quality))|)
  }

  /** One more batch keeps the record of the earlier ones and adds its own. */
  lemma HarvestStep(pages: seq<seq<ShikiRecord>>, known: set<string>, filters: seq<AnimeFilter>,
                    picked: seq<seq<AnimeData>>, log: seq<seq<TitleRun>>, kept: seq<AnimeData>, runs: seq<TitleRun>,
                    d: Downloader, saveRoot: string, fps: Option<string>, withAudio: bool, quality: string,
                    synopses: string -> Option<string>, translations: string -> seq<TranslationInfo>,
                    worlds: string -> nat -> World)
    requires |picked| == |log| < |pages| && |pages[|log|]| > 0
    requires forall b :: 0 <= b < |log| ==>
               BatchRecord(pages, known, filters, picked, log, b, d, saveRoot, fps, withAudio, quality,
                           synopses, translations, worlds)
    requires kept == Selected(FreshRecords(pages[|log|], known + IdsOf(AllStored(log, quality))), filters)
    requires ExpansionsOf(runs, kept, d, saveRoot, fps, withAudio, quality, synopses, translations, worlds)
    ensures AllStored(log + [runs], quality) == AllStored(log, quality) + StoredRecords(runs, quality)
    ensures AllRuns(log + [runs]) == AllRuns(log) + runs
    ensures forall b :: 0 <= b <= |log| ==>
              BatchRecord(pages, known, filters, picked + [kept], log + [runs], b, d, saveRoot, fps, withAudio, quality,
                          synopses, translations, worlds)
  {
    var log' := log + [runs];
    assert log'[..|log|] == log;
    forall b | 0 <= b <= |log|
      ensures BatchRecord(pages, known, filters, picked + [kept], log', b, d, saveRoot, fps, withAudio, quality,
                          synopses, translations, worlds)
    {
      assert log'[..b] == log[..b];
      if b < |log| {
        assert BatchRecord(pages, known, filters, picked, log, b, d, saveRoot, fps, withAudio, quality,
                           synopses, translations, worlds);
        assert (picked + [kept])[b] == picked[b] && log'[b] == log[b];
      }
    }
  }

  /**
   * One more batch leaves the stop rule's verdicts on the earlier ones as they
   * were, and adds its own: the count of the parsed ids `ids` after it.
   */
  lemma UnstoppedStep(maxSamples: Option<int>, known: set<string>, log: seq<seq<TitleRun>>, runs: seq<TitleRun>,
                      ids: set<string>, quality: string)
    requires forall b :: 1 <= b <= |log| ==> Unstopped(maxSamples, known, log, b, quality)
    requires ids == known + IdsOf(AllStored(log + [runs], quality))
    ensures forall b :: 1 <= b <= |log| ==> Unstopped(maxSamples, known, log + [runs], b, quality)
    ensures !ShouldStop(maxSamples, |ids|) ==>
              forall b :: 1 <= b <= |log| + 1 ==> Unstopped(maxSamples, known, log + [runs], b, quality)
  {
    var log' := log + [runs];
    assert log'[..|log| + 1] == log';
    forall b | 1 <= b <= |log|
      ensures Unstopped(maxSamples, known, log', b, quality)
    {
      assert log'[..b] == log[..b];
      assert Unstopped(maxSamples, known, log, b, quality);
    }
  }

  /**
   * The page loop of `main`, one page of Shikimori records per batch (a page
   * past the end reads as empty). `synopses`, `translations` and `worlds`
   * give, per title id, what MyAnimeList, the translation list and each
   * `fast_download` call return. Returns the parsed ids, the stored titles
   * and the number of batches processed; `picked[b]` are the titles batch `b`
   * kept and `log[b]` how their expansions went.
   */
  method Harvest(pages: seq<seq<ShikiRecord>>, known: set<string>, filters: seq<AnimeFilter>, maxSamples: Option<int>,
                 saveRoot: string, fps: Option<string>, withAudio: bool, quality: string, d: Downloader,
                 synopses: string -> Option<string>, translations: string -> seq<TranslationInfo>,
                 worlds: string -> nat -> World)
    returns (ids: set<string>, animes: seq<AnimeData>, batches: nat,
             ghost picked: seq<seq<AnimeData>>, ghost log: seq<seq<TitleRun>>)
    modifies d
    ensures batches <= |pages|
    // the first page is always processed when it is not empty, whatever the known ids
    ensures |pages| > 0 && |pages[0]| > 0 ==> batches >= 1
    // the stored titles are those of each processed batch in turn
    ensures |picked| == |log| == batches && animes == AllStored(log, quality)
    // every processed batch read a non-empty page, kept the fresh titles the filters accept and expanded each
    ensures forall b :: 0 <= b < batches ==>
              BatchRecord(pages, known, filters, picked, log, b, d, saveRoot, fps, withAudio, quality,
                          synopses, translations, worlds)
    // the titles were expanded one after the other, each from the state the one before it left
    ensures Chained(AllRuns(log), old(d.files), old(d.dirs), d.files, d.dirs)
    // the stop rule did not fire before the last batch
    ensures forall b :: 1 <= b < batches ==> Unstopped(maxSamples, known, log, b, quality)
    // the parsed ids are the known ones and those of every stored title
    ensures ids == known + IdsOf(animes)
    // a title already parsed is never parsed again
    ensures forall k :: 0 <= k < |animes| ==> animes[k].id !in known
    // every video path is relative to the dataset root
    ensures StoredPaths(animes, quality)
    // the loop ends at the first empty page or once more than `max_samples` ids are parsed
    ensures batches < |pages| && |pages[batches]| > 0 ==> ShouldStop(maxSamples, |ids|)
  {
    ids := known;
    animes := [];
    batches := 0;
    picked, log := [], [];
    while batches < |pages| && |pages[batches]| > 0
      invariant batches <= |pages|
      invariant |picked| == |log| == batches && animes == AllStored(log, quality)
      invariant forall b :: 0 <= b < batches ==>
                  BatchRecord(pages, known, filters, picked, log, b, d, saveRoot, fps, withAudio, quality,
                              synopses, translations, worlds)
      invariant Chained(AllRuns(log), old(d.files), old(d.dirs), d.files, d.dirs)
      invariant forall b :: 1 <= b <= batches ==> Unstopped(maxSamples, known, log, b, quality)
      invariant ids == known + IdsOf(animes)
      invariant forall k :: 0 <= k < |animes| ==> animes[k].id !in known
      invariant StoredPaths(animes, quality)
      decreases |pages| - batches
    {
      ghost var kept, runs;
      ids, animes, kept, runs := HarvestBatch(pages, known, filters, maxSamples, saveRoot, fps, withAudio, quality, d,
                                              synopses, translations, worlds, batches, ids, animes, picked, log,
                                              old(d.files), old(d.dirs));
      picked, log := picked + [kept], log + [runs];
      batches := batches + 1;
      if ShouldStop(maxSamples, |ids|) {
        break;
      }
    }
  }

  /** One turn of the page loop: the next page is parsed and its kept titles expanded and stored. */
  method HarvestBatch(pages: seq<seq<ShikiRecord>>, known: set<string>, filters: seq<AnimeFilter>, maxSamples: Option<int>,
                      saveRoot: string, fps: Option<string>, withAudio: bool, quality: string, d: Downloader,
                      synopses: string -> Option<string>, translations: string -> seq<TranslationInfo>,
                      worlds: string -> nat -> World, batch: nat, ids0: set<string>, animes0: seq<AnimeData>,
                      ghost picked: seq<seq<AnimeData>>, ghost log: seq<seq<TitleRun>>,
                      ghost files0: map<Path, Content>, ghost dirs0: set<string>)
    returns (ids: set<string>, animes: seq<AnimeData>, ghost kept: seq<AnimeData>, ghost runs: seq<TitleRun>)
    requires |picked| == |log| == batch < |pages| && |pages[batch]| > 0 && animes0 == AllStored(log, quality)
    requires forall b :: 0 <= b < |log| ==>
               BatchRecord(pages, known, filters, picked, log, b, d, saveRoot, fps, withAudio, quality,
                           synopses, translations, worlds)
    requires Chained(AllRuns(log), files0, dirs0, d.files, d.dirs)
    requires forall b :: 1 <= b <= |log| ==> Unstopped(maxSamples, known, log, b, quality)
    requires ids0 == known + IdsOf(animes0)
    requires forall k :: 0 <= k < |animes0| ==> animes0[k].id !in known
    requires StoredPaths(animes0, quality)
    modifies d
    ensures animes == AllStored(log + [runs], quality)
    ensures forall b :: 0 <= b < |log| + 1 ==>
              BatchRecord(pages, known, filters, picked + [kept], log + [runs], b, d, saveRoot, fps, withAudio, quality,
                          synopses, translations, worlds)
    ensures Chained(AllRuns(log + [runs]), files0, dirs0, d.files, d.dirs)
    ensures forall b :: 1 <= b <= |log| ==> Unstopped(maxSamples, known, log + [runs], b, quality)
    ensures !ShouldStop(maxSamples, |ids|) ==>
              forall b :: 1 <= b <= |log| + 1 ==> Unstopped(maxSamples, known, log + [runs], b, quality)
    ensures ids == known + IdsOf(animes)
    ensures forall k :: 0 <= k < |animes| ==> animes[k].id !in known
    ensures StoredPaths(animes, quality)
  {
    var page := ParseBatch(pages[batch], ids0, filters);
    ghost var files1, dirs1 := d.files, d.dirs;
    ids, animes, runs := StoreBatch(page, known, ids0, animes0, saveRoot, fps, withAudio, quality, d,
                                    synopses, translations, worlds);
    kept := page;
    HarvestStep(pages, known, filters, picked, log, kept, runs, d, saveRoot, fps, withAudio, quality,
                synopses, translations, worlds);
    ChainedConcat(AllRuns(log), runs, files0, dirs0, files1, dirs1, d.files, d.dirs);
    UnstoppedStep(maxSamples, known, log, runs, ids, quality);
  }
}
