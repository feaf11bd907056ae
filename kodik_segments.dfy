/**
 * The pure rules of `core/kodik_fast_downloader.py`: how a manifest becomes
 * a segment list, how the cache key is spelled, how segment files are named
 * and ordered for the muxer, and which options the muxer is given.
 */
module KodikSegments {
  import opened PyText
  import opened Paths

  // ---------------------------------------------------------------------------
  // Manifest parsing (`_get_segments`)
  // ---------------------------------------------------------------------------

  /** One segment: where to fetch it and the index that names its file. */
  datatype Segment = Segment(url: string, index: string)

  /** `_get_segments` raises `IndexError` on a non-blank line without `-`. */
  datatype ManifestError = MissingIndexField

  datatype Parsed = Ok(segments: seq<Segment>) | Err(error: ManifestError)

  /** Number of header lines dropped by `manifest.split('\n')[7:]`. */
  const HeaderLines: nat := 7

  /** `manifest.split('\n')[7:]` (an empty list when there are at most 7 lines). */
  function BodyLines(manifest: string): seq<string> {
    var lines := Split(manifest, '\n');
    if |lines| > HeaderLines then lines[HeaderLines..] else []
  }

  /** The lines at even offsets 0, 2, 4, ... of the body. */
  function EvenLines(body: seq<string>): (r: seq<string>)
    ensures |body| <= 2 * |r| <= |body| + 1
    ensures forall k :: 0 <= k < |r| ==> r[k] == body[2 * k]
  {
    seq((|body| + 1) / 2, k requires 0 <= k < (|body| + 1) / 2 => body[2 * k])
  }

  /** The non-blank lines, in order. */
  function NonBlank(lines: seq<string>): (r: seq<string>)
    ensures |r| <= |lines|
    ensures forall k :: 0 <= k < |r| ==> !IsBlank(r[k])
    decreases |lines|
  {
    if |lines| == 0 then []
    else if IsBlank(lines[0]) then NonBlank(lines[1..])
    else [lines[0]] + NonBlank(lines[1..])
  }

  /** The lines `_get_segments` turns into segments. */
  function SegmentLines(manifest: string): seq<string> {
    NonBlank(EvenLines(BodyLines(manifest)))
  }

  /** `line[2:]` with Python's tolerant slicing. */
  function DropTwo(line: string): string {
    if |line| >= 2 then line[2..] else []
  }

  /** `[original_link + line[2:], line.split('-')[1]]`, when that field exists. */
  function SegmentOf(line: string, link: string): Segment
    requires '-' in line
  {
    SplitHasSecondField(line, '-');
    Segment(link + DropTwo(line), Split(line, '-')[1])
  }

  /**
   * The segments of the selected lines, in order; the first line without
   * `-` makes the whole result an error, as the `IndexError` in the loop does.
   */
  function SegmentsOf(lines: seq<string>, link: string): Parsed
    decreases |lines|
  {
    if |lines| == 0 then Ok([])
    else
      match SegmentsOf(lines[..|lines| - 1], link)
      case Err(e) => Err(e)
      case Ok(p) =>
        var last := lines[|lines| - 1];
        if '-' in last then Ok(p + [SegmentOf(last, link)]) else Err(MissingIndexField)
  }

  /**
   * What `SegmentsOf` computes: a result exactly when every line has a `-`,
   * and then one segment per line, in order.
   */
  lemma {:induction false} SegmentsOfMeaning(lines: seq<string>, link: string)
    ensures SegmentsOf(lines, link).Ok? <==> forall k :: 0 <= k < |lines| ==> '-' in lines[k]
    ensures SegmentsOf(lines, link).Ok? ==> |SegmentsOf(lines, link).segments| == |lines|
    ensures SegmentsOf(lines, link).Ok? ==>
              forall k :: 0 <= k < |lines| ==> SegmentsOf(lines, link).segments[k] == SegmentOf(lines[k], link)
    decreases |lines|
  {
    if |lines| > 0 {
      var init := lines[..|lines| - 1];
      SegmentsOfMeaning(init, link);
      assert forall k :: 0 <= k < |init| ==> init[k] == lines[k];
    }
  }

  /** The reference meaning of `_get_segments`. */
  function ParseManifest(manifest: string, link: string): Parsed {
    SegmentsOf(SegmentLines(manifest), link)
  }

  /**
   * `_get_segments` as written: a loop over the even offsets of the body that
   * appends one pair per non-blank line.
   */
  method GetSegments(manifest: string, link: string) returns (r: Parsed)
    ensures r == ParseManifest(manifest, link)
  {
    r := SegmentsOfBody(BodyLines(manifest), link);
  }

  /** The loop of `_get_segments` over the lines after the header. */
  method SegmentsOfBody(body: seq<string>, link: string) returns (r: Parsed)
    ensures r == SegmentsOf(NonBlank(EvenLines(body)), link)
  {
    ghost var even := EvenLines(body);
    var res: seq<Segment> := [];
    var i := 0;
    ghost var j := 0;
    while i < |body|
      invariant i == 2 * j && 0 <= j <= |even|
      invariant SegmentsOf(NonBlank(even[..j]), link) == Ok(res)
    {
      var line := body[i];
      SegmentsStep(even, j, res, link);
      if !IsBlank(line) {
        if '-' !in line {
          return Err(MissingIndexField);
        }
        res := res + [SegmentOf(line, link)];
      }
      i, j := i + 2, j + 1;
    }
    assert even[..j] == even;
    return Ok(res);
  }

  /** One step of the loop: what the next even line does to the result so far. */
  lemma SegmentsStep(even: seq<string>, j: nat, res: seq<Segment>, link: string)
    requires j < |even| && SegmentsOf(NonBlank(even[..j]), link) == Ok(res)
    ensures IsBlank(even[j]) ==> SegmentsOf(NonBlank(even[..j + 1]), link) == Ok(res)
    ensures !IsBlank(even[j]) && '-' in even[j] ==>
              SegmentsOf(NonBlank(even[..j + 1]), link) == Ok(res + [SegmentOf(even[j], link)])
    ensures !IsBlank(even[j]) && '-' !in even[j] ==> SegmentsOf(NonBlank(even), link) == Err(MissingIndexField)
  {
    var line := even[j];
    assert even[..j + 1] == even[..j] + [line];
    NonBlankSnoc(even[..j], line);
    if IsBlank(line) {
      assert NonBlank(even[..j + 1]) == NonBlank(even[..j]);
    } else {
      SegmentsOfSnoc(NonBlank(even[..j]), line, link);
      if '-' !in line {
        GetSegmentsStop(even, j, link);
      }
    }
  }

  /** A line without `-` at position `j` makes the whole manifest an error. */
  lemma GetSegmentsStop(even: seq<string>, j: nat, link: string)
    requires j < |even| && !IsBlank(even[j]) && '-' !in even[j]
    ensures SegmentsOf(NonBlank(even), link) == Err(MissingIndexField)
  {
    NonBlankAppend(even[..j], even[j..]);
    assert even[..j] + even[j..] == even;
    assert even[j..] == [even[j]] + even[j + 1..];
    var sel := NonBlank(even);
    var k := |NonBlank(even[..j])|;
    assert sel[k] == even[j];
    SegmentsOfMeaning(sel, link);
  }

  lemma SegmentsOfSnoc(lines: seq<string>, line: string, link: string)
    ensures SegmentsOf(lines + [line], link)
         == match SegmentsOf(lines, link)
            case Err(e) => Err(e)
            case Ok(p) => if '-' in line then Ok(p + [SegmentOf(line, link)]) else Err(MissingIndexField)
  {
    assert (lines + [line])[..|lines|] == lines;
  }

  lemma {:induction false} NonBlankSnoc(lines: seq<string>, line: string)
    ensures NonBlank(lines + [line]) == NonBlank(lines) + (if IsBlank(line) then [] else [line])
    decreases |lines|
  {
    if |lines| > 0 {
      assert (lines + [line])[1..] == lines[1..] + [line];
      NonBlankSnoc(lines[1..], line);
    }
  }

  lemma {:induction false} NonBlankAppend(a: seq<string>, b: seq<string>)
    ensures NonBlank(a + b) == NonBlank(a) + NonBlank(b)
    decreases |a|
  {
    if |a| > 0 {
      assert (a + b)[1..] == a[1..] + b;
      NonBlankAppend(a[1..], b);
    } else {
      assert a + b == b;
    }
  }

  /** A manifest of header lines only has no segments, which is not an error. */
  lemma HeaderOnlyManifest(manifest: string, link: string)
    requires |Split(manifest, '\n')| <= HeaderLines + 1
    requires |Split(manifest, '\n')| == HeaderLines + 1 ==> IsBlank(Split(manifest, '\n')[HeaderLines])
    ensures ParseManifest(manifest, link) == Ok([])
  {
    var body := BodyLines(manifest);
    if |body| == 1 {
      assert EvenLines(body) == [body[0]];
      assert NonBlank([body[0]]) == [];
    } else {
      assert |body| == 0;
      assert EvenLines(body) == [];
    }
    assert SegmentLines(manifest) == [];
  }

  /**
   * Only the even body lines matter: two manifests whose bodies agree at every
   * even offset and have the same length give the same result, whatever their
   * headers and odd lines say.
   */
  lemma OddLinesIgnored(m1: string, m2: string, link: string)
    requires |BodyLines(m1)| == |BodyLines(m2)|
    requires forall k :: 0 <= k < |BodyLines(m1)| && k % 2 == 0 ==> BodyLines(m1)[k] == BodyLines(m2)[k]
    ensures ParseManifest(m1, link) == ParseManifest(m2, link)
  {
    var e1, e2 := EvenLines(BodyLines(m1)), EvenLines(BodyLines(m2));
    assert forall k :: 0 <= k < |e1| ==> e1[k] == BodyLines(m1)[2 * k];
    assert e1 == e2;
  }

  /** The k-th segment comes from the k-th selected line: its URL and its `-` field. */
  lemma SegmentFields(manifest: string, link: string, k: nat)
    requires ParseManifest(manifest, link).Ok?
    requires k < |SegmentLines(manifest)|
    ensures |ParseManifest(manifest, link).segments| == |SegmentLines(manifest)|
    ensures var line := SegmentLines(manifest)[k];
            var s := ParseManifest(manifest, link).segments[k];
            && s.url == link + DropTwo(line)
            && '-' in line && |Split(line, '-')| >= 2 && s.index == Split(line, '-')[1] && '-' !in s.index
            && exists rest :: line == Split(line, '-')[0] + "-" + s.index + rest
  {
    SegmentsOfMeaning(SegmentLines(manifest), link);
    var line := SegmentLines(manifest)[k];
    SplitHasSecondField(line, '-');
    SplitFirstTwo(line, '-');
    SplitPiecesHaveNoSep(line, '-');
  }

  // ---------------------------------------------------------------------------
  // Cache key (`_translation_hash`) and file names
  // ---------------------------------------------------------------------------

  /** The string hashed by `_translation_hash`: the five fields concatenated. */
  function HashInput(id: string, idType: string, seriaNum: int, translationId: string, quality: string): string {
    id + idType + translationId + IntToString(seriaNum) + quality
  }

  /**
   * Plain concatenation is not injective: translation "61" of episode 1 and
   * translation "6" of episode 11 hash the same string, so they share one
   * working directory whatever the digest.
   */
  lemma HashInputCollides()
    ensures HashInput("1", "shikimori", 1, "61", "720") == HashInput("1", "shikimori", 11, "6", "720")
  {
    assert IntToString(1) == "1";
    assert NatToString(11) == NatToString(1) + "1";
  }

  /** The requested quality is the last part of the hashed string. */
  lemma HashInputEndsWithQuality(id: string, idType: string, seriaNum: int, translationId: string, q1: string, q2: string)
    requires |q1| == |q2| && q1 != q2
    ensures HashInput(id, idType, seriaNum, translationId, q1) != HashInput(id, idType, seriaNum, translationId, q2)
  {
    var h1 := HashInput(id, idType, seriaNum, translationId, q1);
    var h2 := HashInput(id, idType, seriaNum, translationId, q2);
    assert h1[|h1| - |q1|..] == q1;
    assert h2[|h2| - |q2|..] == q2;
  }

  /** `f'{segments[i][1]}.ts'` */
  function SegmentFileName(index: string): string {
    index + ".ts"
  }

  /**
   * `segment_path.with_stem(f'{segment_path.stem}~').name`: `{index}~.ts`,
   * or `.ts~` for an empty index, whose name `.ts` has no suffix.
   */
  function TempSegmentFileName(index: string): string {
    if index == [] then ".ts~" else index + "~" + ".ts"
  }

  /** The temp name is what pathlib's `with_stem` makes of the final name. */
  lemma TempNameFollowsWithStem(index: string)
    ensures TempSegmentFileName(index) == WithStem(SegmentFileName(index), Stem(SegmentFileName(index)) + "~")
  {
    var name := SegmentFileName(index);
    SuffixOfExtension(index, ".ts");
    if index == [] {
      assert Suffix(name) == [] && Stem(name) == ".ts";
    } else {
      assert Suffix(name) == ".ts" && Stem(name) == index;
    }
  }

  /**
   * A temp segment name is never a final segment name unless the final
   * index itself ends with `~`.
   */
  lemma TempNeverFinal(index: string, other: string)
    requires other == [] || other[|other| - 1] != '~'
    ensures TempSegmentFileName(index) != SegmentFileName(other)
  {
    var t, f := TempSegmentFileName(index), SegmentFileName(other);
    assert f[|f| - 1] == 's';
    if index == [] {
      assert t == ".ts~";
      assert t[|t| - 1] == '~';
    } else {
      assert t[..|t| - 3] == index + "~";
      assert f[..|f| - 3] == other;
    }
  }

  /** `path.suffix == '.ts'`: the file is a segment in the muxer's eyes. */
  predicate IsSegmentFile(name: string) {
    Suffix(name) == ".ts"
  }

  /** A segment's final file is picked up by the assembler exactly when its index is not empty. */
  lemma SegmentFileSelected(index: string)
    ensures IsSegmentFile(SegmentFileName(index)) <==> index != []
    ensures index != [] ==> Stem(SegmentFileName(index)) == index
  {
    SuffixOfExtension(index, ".ts");
  }

  /** `int(path.stem)` succeeds. */
  predicate HasIntStem(name: string) {
    ParseInt(Stem(name)).Some?
  }

  // ---------------------------------------------------------------------------
  // Ordering for the muxer (`sorted(files, key=lambda path: int(path.stem))`)
  // ---------------------------------------------------------------------------

  /** `int(path.stem)` as a total key; only used where every stem is an integer. */
  function SortKey(name: string): int {
    match ParseInt(Stem(name))
    case Some(v) => v
    case None => 0
  }

  predicate AllIntStems(names: seq<string>) {
    forall k :: 0 <= k < |names| ==> HasIntStem(names[k])
  }

  predicate SortedBy<T>(s: seq<T>, key: T -> int) {
    forall i, j :: 0 <= i < j < |s| ==> key(s[i]) <= key(s[j])
  }

  /** Puts `x` before the first element whose key is not smaller. */
  function InsertBy<T>(x: T, s: seq<T>, key: T -> int): (r: seq<T>)
    requires SortedBy(s, key)
    ensures SortedBy(r, key)
    ensures multiset(r) == multiset(s) + multiset{x}
    decreases |s|
  {
    if |s| == 0 || key(x) <= key(s[0]) then [x] + s
    else
      var rest := InsertBy(x, s[1..], key);
      assert s == [s[0]] + s[1..];
      KeyLowerBound(rest, s[1..], x, key, key(s[0]));
      [s[0]] + rest
  }

  /** A lower bound on the keys of `s` and on `key(x)` bounds every key of a permutation of `s + [x]`. */
  lemma KeyLowerBound<T>(r: seq<T>, s: seq<T>, x: T, key: T -> int, lo: int)
    requires multiset(r) == multiset(s) + multiset{x}
    requires lo <= key(x) && forall k :: 0 <= k < |s| ==> lo <= key(s[k])
    ensures forall k :: 0 <= k < |r| ==> lo <= key(r[k])
  {
    forall k | 0 <= k < |r| ensures lo <= key(r[k]) {
      assert r[k] in multiset(r);
      if r[k] != x {
        assert r[k] in multiset(s);
        var j :| 0 <= j < |s| && s[j] == r[k];
      }
    }
  }

  /** `sorted(s, key=key)`: a permutation of `s`, in ascending key order. */
  function SortBy<T>(s: seq<T>, key: T -> int): (r: seq<T>)
    ensures SortedBy(r, key)
    ensures multiset(r) == multiset(s)
    decreases |s|
  {
    if |s| == 0 then []
    else
      assert s == [s[0]] + s[1..];
      InsertBy(s[0], SortBy(s[1..], key), key)
  }

  /**
   * The order handed to the muxer: the `.ts` names sorted by `int(stem)`, or
   * `None` when some stem is not an integer (`ValueError` from the sort key).
   */
  function OrderSegmentFiles(names: seq<string>): Option<seq<string>> {
    if AllIntStems(names) then Some(SortBy(names, SortKey)) else None
  }

  /**
   * The sort raises exactly when some stem is not an integer; otherwise the
   * muxer gets every name once, in ascending `int(stem)` order.
   */
  lemma OrderSegmentFilesSpec(names: seq<string>)
    ensures var r := OrderSegmentFiles(names);
            && (r.None? <==> exists k :: 0 <= k < |names| && !HasIntStem(names[k]))
            && (r.Some? ==> SortedBy(r.value, SortKey) && multiset(r.value) == multiset(names))
  {
  }

  /** Two permutations of each other, both sorted by keys that are distinct, are equal. */
  lemma {:induction false} SortedPermutationUnique<T>(a: seq<T>, b: seq<T>, key: T -> int)
    requires SortedBy(a, key) && SortedBy(b, key)
    requires multiset(a) == multiset(b)
    requires forall i, j :: 0 <= i < j < |a| ==> key(a[i]) != key(a[j])
    ensures a == b
    decreases |a|
  {
    assert |b| == |multiset(b)| == |multiset(a)| == |a|;
    if |a| > 0 {
      SortedPermutationHead(a, b, key);
      MultisetTail(a, b);
      var a', b' := a[1..], b[1..];
      assert forall i, j :: 0 <= i < j < |a'| ==> key(a'[i]) != key(a'[j]) by {
        forall i, j | 0 <= i < j < |a'| ensures key(a'[i]) != key(a'[j]) {
          assert a'[i] == a[i + 1] && a'[j] == a[j + 1];
        }
      }
      SortedPermutationUnique(a', b', key);
      assert a == [a[0]] + a' && b == [b[0]] + b';
    }
  }

  lemma SortedPermutationHead<T>(a: seq<T>, b: seq<T>, key: T -> int)
    requires SortedBy(a, key) && SortedBy(b, key)
    requires multiset(a) == multiset(b) && |a| > 0
    requires forall i, j :: 0 <= i < j < |a| ==> key(a[i]) != key(a[j])
    ensures |b| > 0 && a[0] == b[0]
  {
    assert |b| == |multiset(b)| == |multiset(a)| == |a|;
    assert a[0] in multiset(b);
    assert b[0] in multiset(a);
    var i :| 0 <= i < |b| && b[i] == a[0];
    var j :| 0 <= j < |a| && a[j] == b[0];
    assert key(b[0]) <= key(b[i]);
    assert key(a[0]) <= key(a[j]);
    if j > 0 {
      assert false;
    }
  }

  lemma MultisetTail<T>(a: seq<T>, b: seq<T>)
    requires |a| > 0 && |b| > 0 && a[0] == b[0] && multiset(a) == multiset(b)
    ensures multiset(a[1..]) == multiset(b[1..])
  {
    assert a == [a[0]] + a[1..] && b == [b[0]] + b[1..];
    assert multiset(a[1..]) == multiset(a) - multiset{a[0]};
    assert multiset(b[1..]) == multiset(b) - multiset{b[0]};
  }

  /** A segment file named by decimal digits sorts by the value of those digits. */
  lemma DigitSegmentKey(index: string)
    requires |index| >= 1 && AllDigits(index)
    ensures HasIntStem(SegmentFileName(index)) && SortKey(SegmentFileName(index)) == DigitsValue(index)
  {
    SegmentFileSelected(index);
  }

  /** When every key is distinct, the muxer's order is the only sorted arrangement. */
  lemma OrderDeterminedByKeys(names: seq<string>, want: seq<string>)
    requires AllIntStems(names) && multiset(want) == multiset(names)
    requires SortedBy(want, SortKey)
    requires forall i, j :: 0 <= i < j < |want| ==> SortKey(want[i]) != SortKey(want[j])
    ensures OrderSegmentFiles(names) == Some(want)
  {
    OrderSegmentFilesSpec(names);
    SortedPermutationUnique(want, OrderSegmentFiles(names).value, SortKey);
  }

  /** Two elements with different keys come out of the sort in key order. */
  lemma SortPair<T>(x: T, y: T, key: T -> int)
    requires key(x) < key(y)
    ensures SortBy([y, x], key) == [x, y]
  {
    assert [y, x][1..] == [x];
    assert [x][1..] == [];
    assert SortBy([x], key) == [x];
  }

  /**
   * Numeric, not lexicographic: with decimal indices whose values are
   * ordered, the muxer gets them in value order (`2.ts` before `10.ts`).
   */
  lemma NumericOrder(a: string, b: string)
    requires |a| >= 1 && AllDigits(a) && |b| >= 1 && AllDigits(b)
    requires DigitsValue(a) < DigitsValue(b)
    ensures OrderSegmentFiles([SegmentFileName(b), SegmentFileName(a)])
         == Some([SegmentFileName(a), SegmentFileName(b)])
  {
    DigitSegmentKey(a);
    DigitSegmentKey(b);
    var fa, fb := SegmentFileName(a), SegmentFileName(b);
    var names := [fb, fa];
    forall k | 0 <= k < |names| ensures HasIntStem(names[k]) {
      if k == 0 { assert names[k] == fb; } else { assert names[k] == fa; }
    }
    SortPair(fa, fb, SortKey);
  }

  /** A leftover `{index}~.ts` makes the sort key raise. */
  lemma LeftoverTempBreaksOrder(index: string)
    requires index != []
    ensures OrderSegmentFiles([TempSegmentFileName(index)]).None?
  {
    var stem := index + "~";
    SuffixOfExtension(stem, ".ts");
    ParseIntNeedsFinalDigit(stem);
    assert !HasIntStem([TempSegmentFileName(index)][0]);
  }

  // ---------------------------------------------------------------------------
  // `files.txt` and the muxer's options
  // ---------------------------------------------------------------------------

  /** The text of `files.txt`: one `file <name>` line per name, each ended by a newline. */
  function FilesTxt(names: seq<string>): string
    decreases |names|
  {
    if |names| == 0 then [] else "file " + names[0] + "\n" + FilesTxt(names[1..])
  }

  /** The loop `r += f"file {file.name}\n"` over the sorted names. */
  method BuildFilesTxt(names: seq<string>) returns (r: string)
    ensures r == FilesTxt(names)
  {
    r := "";
    var i := 0;
    while i < |names|
      invariant 0 <= i <= |names|
      invariant r + FilesTxt(names[i..]) == FilesTxt(names)
    {
      FilesTxtStep(names, i, r);
      r := r + "file " + names[i] + "\n";
      i := i + 1;
    }
    assert names[i..] == [];
  }

  lemma FilesTxtStep(names: seq<string>, i: nat, r: string)
    requires i < |names|
    ensures r + FilesTxt(names[i..]) == (r + "file " + names[i] + "\n") + FilesTxt(names[i + 1..])
  {
    assert names[i..][1..] == names[i + 1..];
  }

  function FileLines(names: seq<string>): (r: seq<string>)
    ensures |r| == |names|
    ensures forall k :: 0 <= k < |names| ==> r[k] == "file " + names[k]
  {
    seq(|names|, k requires 0 <= k < |names| => "file " + names[k])
  }

  lemma {:induction false} FilesTxtIsJoin(names: seq<string>)
    ensures FilesTxt(names) == Join(FileLines(names) + [""], '\n')
    decreases |names|
  {
    if |names| > 0 {
      FilesTxtIsJoin(names[1..]);
      var lines := FileLines(names) + [""];
      assert lines[1..] == FileLines(names[1..]) + [""];
    }
  }

  /**
   * Reading `files.txt` back line by line gives `file <name>` for each name
   * in order, then the empty text after the final newline.
   */
  lemma FilesTxtLines(names: seq<string>)
    requires forall k :: 0 <= k < |names| ==> '\n' !in names[k]
    ensures Split(FilesTxt(names), '\n') == FileLines(names) + [""]
  {
    FilesTxtIsJoin(names);
    FileLinesHaveNoNewline(names);
    SplitJoin(FileLines(names) + [""], '\n');
  }

  lemma FileLinesHaveNoNewline(names: seq<string>)
    requires forall k :: 0 <= k < |names| ==> '\n' !in names[k]
    ensures forall k :: 0 <= k < |names| + 1 ==> '\n' !in (FileLines(names) + [""])[k]
  {
    var lines := FileLines(names) + [""];
    forall k | 0 <= k < |lines| ensures '\n' !in lines[k] {
      if k < |names| {
        assert lines[k] == "file " + names[k];
      }
    }
  }

  /** The `ffmpeg_output_param` list. `fps` is the text of the frame rate, when one is given. */
  function OutputParams(fps: Option<string>, withAudio: bool): seq<string> {
    var rate := if fps.Some? then "-r " + fps.value else "-c copy";
    if withAudio then [rate] else ["-an", rate]
  }

  /**
   * `-an` exactly when audio is dropped, and first; `-r <fps>` when a frame
   * rate is given, else `-c copy` and no `-r`.
   */
  lemma OutputParamsFlags(fps: Option<string>, withAudio: bool)
    ensures var r := OutputParams(fps, withAudio);
            && |r| == (if withAudio then 1 else 2)
            && ("-an" in r <==> !withAudio)
            && (!withAudio ==> r[0] == "-an")
            && (fps.Some? ==> ("-r " + fps.value) in r && "-c copy" !in r)
            && (fps.None? ==> "-c copy" in r && forall k :: 0 <= k < |r| ==> !StartsWith(r[k], "-r "))
  {
    var rate := if fps.Some? then "-r " + fps.value else "-c copy";
    assert rate[1] == (if fps.Some? then 'r' else 'c');
    assert rate != "-an" && (fps.Some? ==> rate != "-c copy");
    assert fps.None? ==> !StartsWith(rate, "-r ") && !StartsWith("-an", "-r ");
  }

  /** `" ".join(params)` */
  function JoinWords(words: seq<string>): string
    decreases |words|
  {
    if |words| == 0 then [] else if |words| == 1 then words[0] else words[0] + " " + JoinWords(words[1..])
  }

  /** The command line `_combine_segments` runs, for a given hardware-acceleration option. */
  function FfmpegCommand(directory: string, output: Path, params: seq<string>, hwaccel: Option<string>): string {
    "ffmpeg -y " + (if hwaccel.Some? then "-hwaccel " + hwaccel.value else "") + " -f concat -safe 0 -i "
    + PathString(Path(directory, "files.txt")) + " " + JoinWords(params) + " \"" + PathString(output) + "\""
  }
}
