/**
 * The records of `models/anime_data.py` and `models/external_anime_data.py`,
 * the `%Y-%m-%d %H:%M:%S` timestamp text, `AnimeData.to_json` and
 * `AnimeData.from_json` (which updates the caller's dictionary in place).
 */
module AnimeModel {
  import opened PyText

  /** A `datetime.date`. */
  datatype Date = Date(year: int, month: int, day: int)

  predicate IsLeapYear(y: int) {
    y % 4 == 0 && (y % 100 != 0 || y % 400 == 0)
  }

  function DaysInMonth(y: int, m: int): int
    requires 1 <= m <= 12
  {
    if m == 2 then (if IsLeapYear(y) then 29 else 28)
    else if m == 4 || m == 6 || m == 9 || m == 11 then 30
    else 31
  }

  /** The dates `datetime.date(year, month, day)` accepts. */
  predicate ValidDate(d: Date) {
    1 <= d.year <= 9999 && 1 <= d.month <= 12 && 1 <= d.day <= DaysInMonth(d.year, d.month)
  }

  /** `a < b` on dates: by year, then month, then day. */
  predicate Before(a: Date, b: Date) {
    a.year < b.year || (a.year == b.year && (a.month < b.month || (a.month == b.month && a.day < b.day)))
  }

  /** `released`: a `date` as parsed from Shikimori, or a `datetime` as restored by `from_json`. */
  datatype Moment = Day(date: Date) | Instant(date: Date, hour: int, minute: int, second: int)

  predicate ValidMoment(m: Moment) {
    ValidDate(m.date) && (m.Instant? ==> 0 <= m.hour <= 23 && 0 <= m.minute <= 59 && 0 <= m.second <= 59)
  }

  /** A date read as a datetime at midnight, the way `strftime` prints it. */
  function AsInstant(m: Moment): Moment {
    if m.Day? then Instant(m.date, 0, 0, 0) else m
  }

  /** `AnimeData`; `score` is carried as an exact number, never computed with. */
  datatype AnimeData = AnimeData(
    id: string, malId: string, name: string, title: string, rating: string, score: real,
    released: Moment, genres: seq<string>, mainCharacters: seq<string>, popularity: int,
    description: string, videoPath: string)

  /** `RelatedAnimeData` */
  datatype RelatedAnimeData = RelatedAnimeData(id: string, title: string, released: Date)

  /** `ExtendedAnimeData`: every field of `AnimeData` plus the related titles. */
  datatype ExtendedAnimeData = ExtendedAnimeData(base: AnimeData, relatedAnimes: seq<RelatedAnimeData>)

  // ---------------------------------------------------------------------------
  // `%Y-%m-%d %H:%M:%S`
  // ---------------------------------------------------------------------------

  function DigitChar(n: int): char
    requires 0 <= n <= 9
  {
    ('0' as int + n) as char
  }

  function DigitVal(c: char): int {
    c as int - '0' as int
  }

  /** `%m`, `%d`, `%H`, `%M`, `%S` on output: two digits, zero-padded. */
  function Pad2(n: int): string
    requires 0 <= n < 100
  {
    [DigitChar(n / 10), DigitChar(n % 10)]
  }

  /** `%Y` on output: four digits, zero-padded. */
  function Pad4(n: int): string
    requires 0 <= n < 10000
  {
    [DigitChar(n / 1000), DigitChar(n / 100 % 10), DigitChar(n / 10 % 10), DigitChar(n % 10)]
  }

  /** `released.strftime("%Y-%m-%d %H:%M:%S")`; a date prints as midnight. */
  function FormatMoment(m: Moment): string
    requires ValidMoment(m)
  {
    var t := AsInstant(m);
    Pad4(t.date.year) + "-" + Pad2(t.date.month) + "-" + Pad2(t.date.day) + " "
    + Pad2(t.hour) + ":" + Pad2(t.minute) + ":" + Pad2(t.second)
  }

  predicate DigitsAt(s: string, i: nat, n: nat)
    requires i + n <= |s|
  {
    forall k :: i <= k < i + n ==> IsDigit(s[k])
  }

  function Num2(s: string, i: nat): int
    requires i + 2 <= |s|
  {
    10 * DigitVal(s[i]) + DigitVal(s[i + 1])
  }

  function Num4(s: string, i: nat): int
    requires i + 4 <= |s|
  {
    1000 * DigitVal(s[i]) + 100 * DigitVal(s[i + 1]) + 10 * DigitVal(s[i + 2]) + DigitVal(s[i + 3])
  }

  /** The text has the shape `dddd-dd-dd dd:dd:dd`. */
  predicate TimestampShape(s: string) {
    && |s| == 19
    && s[4] == '-' && s[7] == '-' && s[10] == ' ' && s[13] == ':' && s[16] == ':'
    && DigitsAt(s, 0, 4) && DigitsAt(s, 5, 2) && DigitsAt(s, 8, 2)
    && DigitsAt(s, 11, 2) && DigitsAt(s, 14, 2) && DigitsAt(s, 17, 2)
  }

  /**
   * `datetime.strptime(s, "%Y-%m-%d %H:%M:%S")` on the zero-padded form;
   * `None` where it raises `ValueError`.
   */
  function ParseMoment(s: string): Option<Moment> {
    if !TimestampShape(s) then None
    else
      var m := Instant(Date(Num4(s, 0), Num2(s, 5), Num2(s, 8)), Num2(s, 11), Num2(s, 14), Num2(s, 17));
      if ValidMoment(m) then Some(m) else None
  }

  lemma Pad2Value(s: string, i: nat, n: int)
    requires 0 <= n < 100 && i + 2 <= |s| && s[i..i + 2] == Pad2(n)
    ensures DigitsAt(s, i, 2) && Num2(s, i) == n
  {
    assert s[i] == Pad2(n)[0] && s[i + 1] == Pad2(n)[1];
  }

  lemma Pad4Value(s: string, n: int)
    requires 0 <= n < 10000 && 4 <= |s| && s[..4] == Pad4(n)
    ensures DigitsAt(s, 0, 4) && Num4(s, 0) == n
  {
    assert s[0] == Pad4(n)[0] && s[1] == Pad4(n)[1] && s[2] == Pad4(n)[2] && s[3] == Pad4(n)[3];
    Compose4(n);
  }

  /** A four-digit number is the sum of its digits' place values. */
  lemma Compose4(n: int)
    requires 0 <= n < 10000
    ensures 1000 * (n / 1000) + 100 * (n / 100 % 10) + 10 * (n / 10 % 10) + n % 10 == n
  {
    assert n / 100 == 10 * (n / 1000) + n / 100 % 10;
    assert n / 10 == 10 * (n / 100) + n / 10 % 10;
    assert n == 10 * (n / 10) + n % 10;
  }

  /** `strptime` reads back what `strftime` wrote: a date comes back as a datetime at midnight. */
  lemma ParseFormat(m: Moment)
    requires ValidMoment(m)
    ensures ParseMoment(FormatMoment(m)) == Some(AsInstant(m))
  {
    var t := AsInstant(m);
    var s := FormatMoment(m);
    assert s[..4] == Pad4(t.date.year);
    assert s[4] == '-' && s[7] == '-' && s[10] == ' ' && s[13] == ':' && s[16] == ':';
    Pad4Value(s, t.date.year);
    assert s[5..7] == Pad2(t.date.month);
    Pad2Value(s, 5, t.date.month);
    assert s[8..10] == Pad2(t.date.day);
    Pad2Value(s, 8, t.date.day);
    assert s[11..13] == Pad2(t.hour);
    Pad2Value(s, 11, t.hour);
    assert s[14..16] == Pad2(t.minute);
    Pad2Value(s, 14, t.minute);
    assert s[17..19] == Pad2(t.second);
    Pad2Value(s, 17, t.second);
  }

  lemma Num2Pad(s: string, i: nat)
    requires i + 2 <= |s| && DigitsAt(s, i, 2)
    ensures 0 <= Num2(s, i) < 100 && Pad2(Num2(s, i)) == s[i..i + 2]
  {
    assert IsDigit(s[i]) && IsDigit(s[i + 1]);
  }

  /** The decimal digits of a four-digit number. */
  lemma Digits4(a: int, b: int, c: int, d: int)
    requires 0 <= a <= 9 && 0 <= b <= 9 && 0 <= c <= 9 && 0 <= d <= 9
    ensures var n := 1000 * a + 100 * b + 10 * c + d;
            n / 1000 == a && n / 100 % 10 == b && n / 10 % 10 == c && n % 10 == d
  {
    var n := 1000 * a + 100 * b + 10 * c + d;
    assert n / 100 == 10 * a + b;
    assert n / 10 == 100 * a + 10 * b + c;
  }

  lemma Num4Pad(s: string)
    requires 4 <= |s| && DigitsAt(s, 0, 4)
    ensures 0 <= Num4(s, 0) < 10000 && Pad4(Num4(s, 0)) == s[..4]
  {
    assert IsDigit(s[0]) && IsDigit(s[1]) && IsDigit(s[2]) && IsDigit(s[3]);
    Digits4(DigitVal(s[0]), DigitVal(s[1]), DigitVal(s[2]), DigitVal(s[3]));
  }

  /** The parser accepts nothing but text `strftime` could have written. */
  lemma FormatParse(s: string)
    requires ParseMoment(s).Some?
    ensures ValidMoment(ParseMoment(s).value) && FormatMoment(ParseMoment(s).value) == s
  {
    Num4Pad(s);
    Num2Pad(s, 5);
    Num2Pad(s, 8);
    Num2Pad(s, 11);
    Num2Pad(s, 14);
    Num2Pad(s, 17);
    var f := FormatMoment(ParseMoment(s).value);
    assert |f| == 19;
    assert f[..4] == s[..4] && f[5..7] == s[5..7] && f[8..10] == s[8..10];
    assert f[11..13] == s[11..13] && f[14..16] == s[14..16] && f[17..19] == s[17..19];
    assert forall k :: 0 <= k < 19 ==> f[k] == s[k] by {
      forall k | 0 <= k < 19 ensures f[k] == s[k] {
        if k < 4 { assert f[k] == f[..4][k]; }
        else if 5 <= k < 7 { assert f[k] == f[5..7][k - 5] && s[k] == s[5..7][k - 5]; }
        else if 8 <= k < 10 { assert f[k] == f[8..10][k - 8] && s[k] == s[8..10][k - 8]; }
        else if 11 <= k < 13 { assert f[k] == f[11..13][k - 11] && s[k] == s[11..13][k - 11]; }
        else if 14 <= k < 16 { assert f[k] == f[14..16][k - 14] && s[k] == s[14..16][k - 14]; }
        else if 17 <= k < 19 { assert f[k] == f[17..19][k - 17] && s[k] == s[17..19][k - 17]; }
      }
    }
  }

  // ---------------------------------------------------------------------------
  // to_json / from_json
  // ---------------------------------------------------------------------------

  /** A value of the JSON-ready dictionary. */
  datatype JsonValue = JStr(str: string) | JReal(num: real) | JInt(count: int) | JStrs(strs: seq<string>) | JMoment(moment: Moment)

  /** The twelve dataclass fields. */
  const FieldNames: set<string> := {"id", "mal_id", "name", "title", "rating", "score", "released",
                                    "genres", "main_characters", "popularity", "description", "video_path"}

  /** `asdict(self)` with `released` replaced by its text. */
  function ToJson(a: AnimeData): map<string, JsonValue>
    requires ValidMoment(a.released)
  {
    map[
      "id" := JStr(a.id), "mal_id" := JStr(a.malId), "name" := JStr(a.name), "title" := JStr(a.title),
      "rating" := JStr(a.rating), "score" := JReal(a.score), "released" := JStr(FormatMoment(a.released)),
      "genres" := JStrs(a.genres), "main_characters" := JStrs(a.mainCharacters),
      "popularity" := JInt(a.popularity), "description" := JStr(a.description), "video_path" := JStr(a.videoPath)]
  }

  /**
   * All twelve fields, under their own names, with their values unchanged,
   * except `released`, which becomes its `%Y-%m-%d %H:%M:%S` text.
   */
  lemma ToJsonFields(a: AnimeData)
    requires ValidMoment(a.released)
    ensures ToJson(a).Keys == FieldNames
    ensures var j := ToJson(a);
            && j["id"] == JStr(a.id) && j["mal_id"] == JStr(a.malId) && j["name"] == JStr(a.name)
            && j["title"] == JStr(a.title) && j["rating"] == JStr(a.rating) && j["score"] == JReal(a.score)
            && j["genres"] == JStrs(a.genres) && j["main_characters"] == JStrs(a.mainCharacters)
            && j["popularity"] == JInt(a.popularity) && j["description"] == JStr(a.description)
            && j["video_path"] == JStr(a.videoPath)
    ensures ToJson(a)["released"].JStr? && ParseMoment(ToJson(a)["released"].str) == Some(AsInstant(a.released))
  {
    ParseFormat(a.released);
  }

  /** Why `from_json` raises. */
  datatype JsonError =
    | MissingReleased      // `KeyError` on `data['released']`
    | ReleasedNotText      // `TypeError` from `strptime` on a non-string
    | BadTimestamp         // `ValueError` from `strptime`
    | KeysMismatch         // `TypeError` from `cls(**data)`: a field missing or an unexpected key
    | WrongKind(key: string)

  datatype Decoded = Decoded(entries: map<string, JsonValue>, result: Result)
  datatype Result = Ok(value: AnimeData) | Err(error: JsonError)

  /** The record `cls(**data)` builds once `released` has been converted. */
  function Build(e: map<string, JsonValue>): Result {
    if e.Keys != FieldNames then Err(KeysMismatch)
    else if !e["id"].JStr? then Err(WrongKind("id"))
    else if !e["mal_id"].JStr? then Err(WrongKind("mal_id"))
    else if !e["name"].JStr? then Err(WrongKind("name"))
    else if !e["title"].JStr? then Err(WrongKind("title"))
    else if !e["rating"].JStr? then Err(WrongKind("rating"))
    else if !e["score"].JReal? then Err(WrongKind("score"))
    else if !e["released"].JMoment? then Err(WrongKind("released"))
    else if !e["genres"].JStrs? then Err(WrongKind("genres"))
    else if !e["main_characters"].JStrs? then Err(WrongKind("main_characters"))
    else if !e["popularity"].JInt? then Err(WrongKind("popularity"))
    else if !e["description"].JStr? then Err(WrongKind("description"))
    else if !e["video_path"].JStr? then Err(WrongKind("video_path"))
    else Ok(AnimeData(e["id"].str, e["mal_id"].str, e["name"].str, e["title"].str, e["rating"].str,
                      e["score"].num, e["released"].moment, e["genres"].strs, e["main_characters"].strs,
                      e["popularity"].count, e["description"].str, e["video_path"].str))
  }

  /**
   * `from_json(data)`: the dictionary after the call and the outcome.
   * `released` is parsed and written back into the dictionary before the
   * record is built, so a dictionary with the wrong keys is still changed.
   */
  function Decode(e: map<string, JsonValue>): Decoded {
    if "released" !in e then Decoded(e, Err(MissingReleased))
    else if !e["released"].JStr? then Decoded(e, Err(ReleasedNotText))
    else
      match ParseMoment(e["released"].str)
      case None => Decoded(e, Err(BadTimestamp))
      case Some(m) =>
        var converted := e["released" := JMoment(m)];
        Decoded(converted, Build(converted))
  }

  /** `from_json(to_json(a))` restores every field; `released` comes back as a datetime at midnight. */
  lemma FromJsonToJson(a: AnimeData)
    requires ValidMoment(a.released)
    ensures Decode(ToJson(a)).result == Ok(a.(released := AsInstant(a.released)))
  {
    ParseFormat(a.released);
    var converted := ToJson(a)["released" := JMoment(AsInstant(a.released))];
    assert converted.Keys == ToJson(a).Keys;
    ToJsonFields(a);
  }

  /** A second round trip changes nothing: the text written is the same. */
  lemma ToJsonStable(a: AnimeData)
    requires ValidMoment(a.released)
    ensures ValidMoment(AsInstant(a.released))
    ensures ToJson(a.(released := AsInstant(a.released))) == ToJson(a)
  {
  }

  /**
   * Failures: a dictionary whose keys are not exactly the twelve fields is
   * refused; one whose `released` is missing, not text or not a timestamp
   * is refused and left as it was.
   */
  lemma DecodeFailures(e: map<string, JsonValue>)
    ensures "released" in e && e.Keys != (FieldNames) ==> Decode(e).result.Err?
    ensures "released" !in e ==> Decode(e) == Decoded(e, Err(MissingReleased))
    ensures "released" in e && !e["released"].JStr? ==> Decode(e) == Decoded(e, Err(ReleasedNotText))
    ensures "released" in e && e["released"].JStr? && ParseMoment(e["released"].str).None? ==>
              Decode(e) == Decoded(e, Err(BadTimestamp))
    ensures Decode(e).result.Ok? ==> Decode(e).entries.Keys == e.Keys && Decode(e).entries["released"] == JMoment(Decode(e).result.value.released)
  {
    if "released" in e && e["released"].JStr? && ParseMoment(e["released"].str).Some? {
      var converted := e["released" := JMoment(ParseMoment(e["released"].str).value)];
      assert converted.Keys == e.Keys;
    }
  }

  /** The dictionary handed to `from_json`, which it changes in place. */
  class JsonObject {
    var entries: map<string, JsonValue>

    constructor(entries: map<string, JsonValue>)
      ensures this.entries == entries
    {
      this.entries := entries;
    }
  }

  /** `AnimeData.from_json(obj)`: converts `obj['released']` in place, then builds the record. */
  method FromJson(obj: JsonObject) returns (r: Result)
    modifies obj
    ensures obj.entries == Decode(old(obj.entries)).entries
    ensures r == Decode(old(obj.entries)).result
  {
    if "released" !in obj.entries {
      return Err(MissingReleased);
    }
    var text := obj.entries["released"];
    if !text.JStr? {
      return Err(ReleasedNotText);
    }
    var parsed := ParseMoment(text.str);
    if parsed.None? {
      return Err(BadTimestamp);
    }
    obj.entries := obj.entries["released" := JMoment(parsed.value)];
    r := Build(obj.entries);
  }
}
