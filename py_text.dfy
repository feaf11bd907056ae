/**
 * The handful of Python `str` operations the dataset creator relies on,
 * written out so that the other modules can state exactly what they do:
 * `split`, `strip`, `startswith`/`endswith`, `rpartition`, `int(...)`,
 * `str(int)` and deletion of a character class (`re.sub(r'[...]+', "", s)`).
 */
module PyText {

  datatype Option<T> = None | Some(value: T)

  // ---------------------------------------------------------------------------
  // str.split(sep) with a one-character separator
  // ---------------------------------------------------------------------------

  /** `s.split(sep)`: the pieces between occurrences of `sep`, always at least one. */
  function Split(s: string, sep: char): (parts: seq<string>)
    ensures |parts| >= 1
    decreases |s|
  {
    if |s| == 0 then [""]
    else if s[0] == sep then [""] + Split(s[1..], sep)
    else
      var rest := Split(s[1..], sep);
      [[s[0]] + rest[0]] + rest[1..]
  }

  /** `sep.join(parts)` for a non-empty list of parts. */
  function Join(parts: seq<string>, sep: char): string
    requires |parts| >= 1
    decreases |parts|
  {
    if |parts| == 1 then parts[0] else parts[0] + [sep] + Join(parts[1..], sep)
  }

  /** No piece of a split contains the separator. */
  lemma {:induction false} SplitPiecesHaveNoSep(s: string, sep: char)
    ensures forall i :: 0 <= i < |Split(s, sep)| ==> sep !in Split(s, sep)[i]
    decreases |s|
  {
    if |s| > 0 {
      SplitPiecesHaveNoSep(s[1..], sep);
    }
  }

  /** Joining the pieces of a split with the separator gives the string back. */
  lemma {:induction false} JoinSplit(s: string, sep: char)
    ensures Join(Split(s, sep), sep) == s
    decreases |s|
  {
    if |s| > 0 {
      JoinSplit(s[1..], sep);
      var rest := Split(s[1..], sep);
      if s[0] == sep {
        assert Split(s, sep) == [""] + rest;
        assert Join(Split(s, sep), sep) == [sep] + Join(rest, sep);
      } else {
        var parts := Split(s, sep);
        assert parts == [[s[0]] + rest[0]] + rest[1..];
        if |rest| == 1 {
          assert Join(parts, sep) == [s[0]] + rest[0];
        } else {
          assert parts[1..] == rest[1..];
          assert Join(parts, sep) == [s[0]] + rest[0] + [sep] + Join(rest[1..], sep);
          assert Join(rest, sep) == rest[0] + [sep] + Join(rest[1..], sep);
        }
      }
    }
  }

  /** Splitting `a + [sep] + b`, with no separator in `a`, gives `a` first. */
  lemma {:induction false} SplitAfterPiece(a: string, sep: char, b: string)
    requires sep !in a
    ensures Split(a + [sep] + b, sep) == [a] + Split(b, sep)
    decreases |a|
  {
    if |a| == 0 {
      assert a + [sep] + b == [sep] + b;
      assert ([sep] + b)[1..] == b;
    } else {
      SplitAfterPiece(a[1..], sep, b);
      assert (a + [sep] + b)[1..] == a[1..] + [sep] + b;
      assert [a[0]] + a[1..] == a;
    }
  }

  /** A string without the separator splits into itself alone. */
  lemma {:induction false} SplitWithoutSep(a: string, sep: char)
    requires sep !in a
    ensures Split(a, sep) == [a]
    decreases |a|
  {
    if |a| > 0 {
      SplitWithoutSep(a[1..], sep);
      assert [a[0]] + a[1..] == a;
    }
  }

  /** Splitting a join of separator-free pieces gives the pieces back. */
  lemma {:induction false} SplitJoin(parts: seq<string>, sep: char)
    requires |parts| >= 1
    requires forall i :: 0 <= i < |parts| ==> sep !in parts[i]
    ensures Split(Join(parts, sep), sep) == parts
    decreases |parts|
  {
    if |parts| == 1 {
      SplitWithoutSep(parts[0], sep);
    } else {
      SplitJoin(parts[1..], sep);
      SplitAfterPiece(parts[0], sep, Join(parts[1..], sep));
      assert [parts[0]] + parts[1..] == parts;
    }
  }

  /** A string splits into at least two fields exactly when it holds the separator. */
  lemma {:induction false} SplitHasSecondField(s: string, sep: char)
    ensures |Split(s, sep)| >= 2 <==> sep in s
    decreases |s|
  {
    if |s| > 0 {
      SplitHasSecondField(s[1..], sep);
      assert sep in s <==> s[0] == sep || sep in s[1..];
    }
  }

  /** The first two fields of a split, with the separator between them, start the string. */
  lemma SplitFirstTwo(s: string, sep: char)
    requires |Split(s, sep)| >= 2
    ensures exists rest :: s == Split(s, sep)[0] + [sep] + Split(s, sep)[1] + rest
  {
    var parts := Split(s, sep);
    JoinSplit(s, sep);
    var tail := Join(parts[1..], sep);
    assert s == parts[0] + [sep] + tail;
    if |parts| == 2 {
      assert tail == parts[1];
      assert s == parts[0] + [sep] + parts[1] + [];
    } else {
      assert tail == parts[1] + [sep] + Join(parts[2..], sep);
      assert s == parts[0] + [sep] + parts[1] + ([sep] + Join(parts[2..], sep));
    }
  }

  /** `int(s)` fails on a string that does not end with a digit. */
  lemma ParseIntNeedsFinalDigit(s: string)
    requires |s| > 0 && !IsDigit(s[|s| - 1])
    ensures ParseInt(s).None?
  {
    if |s| >= 2 {
      assert s[1..][|s| - 2] == s[|s| - 1];
    }
  }

  // ---------------------------------------------------------------------------
  // str.strip() and friends
  // ---------------------------------------------------------------------------

  /** The ASCII characters for which Python's `str.isspace()` holds. */
  predicate IsSpace(c: char) {
    c == ' ' || c == '\t' || c == '\n' || c == '\r' || c == '\U{B}' || c == '\U{C}'
    || c == '\U{1C}' || c == '\U{1D}' || c == '\U{1E}' || c == '\U{1F}'
  }

  /** `s.strip() == ''`: the string is empty or made of whitespace only. */
  predicate IsBlank(s: string) {
    forall i :: 0 <= i < |s| ==> IsSpace(s[i])
  }

  /** `s.lstrip()` */
  function StripStart(s: string): (r: string)
    ensures |r| <= |s| && r == s[|s| - |r|..]
    ensures r == [] || !IsSpace(r[0])
    ensures IsBlank(s[..|s| - |r|])
    decreases |s|
  {
    if |s| > 0 && IsSpace(s[0]) then
      var r := StripStart(s[1..]);
      assert s[1..][..|s| - 1 - |r|] == s[1..|s| - |r|];
      r
    else s
  }

  /** `s.rstrip()` */
  function StripEnd(s: string): (r: string)
    ensures |r| <= |s| && r == s[..|r|]
    ensures r == [] || !IsSpace(r[|r| - 1])
    ensures IsBlank(s[|r|..])
    decreases |s|
  {
    if |s| > 0 && IsSpace(s[|s| - 1]) then
      var r := StripEnd(s[..|s| - 1]);
      assert s[..|s| - 1][|r|..] == s[|r|..|s| - 1];
      assert s[..|s| - 1][..|r|] == s[..|r|];
      assert forall i :: |r| <= i < |s| ==> IsSpace(s[i]) by {
        forall i | |r| <= i < |s| ensures IsSpace(s[i]) {
          if i < |s| - 1 {
            assert s[i] == s[|r|..|s| - 1][i - |r|];
          }
        }
      }
      r
    else s
  }

  /**
   * `s.strip()`: the result is the part of `s` between a blank prefix and a
   * blank suffix, and it neither starts nor ends with whitespace.
   */
  function Strip(s: string): (r: string)
    ensures r == [] || (!IsSpace(r[0]) && !IsSpace(r[|r| - 1]))
  {
    StripEndKeepsStart(StripStart(s));
    StripEnd(StripStart(s))
  }

  /** The stripped text is the part of `s` between a blank prefix and a blank suffix. */
  lemma StripBounds(s: string)
    ensures exists i, j :: 0 <= i <= j <= |s| && Strip(s) == s[i..j] && IsBlank(s[..i]) && IsBlank(s[j..])
  {
    var t := StripStart(s);
    var r := StripEnd(t);
    var i := |s| - |t|;
    SliceOfSuffix(s, i, |r|);
    assert r == s[i..i + |r|];
    assert IsBlank(s[i + |r|..]);
  }

  lemma SliceOfSuffix(s: string, i: nat, n: nat)
    requires i + n <= |s|
    ensures s[i..][..n] == s[i..i + n] && s[i..][n..] == s[i + n..]
  {
  }

  lemma StripEndKeepsStart(t: string)
    requires t == [] || !IsSpace(t[0])
    ensures StripEnd(t) == [] || StripEnd(t)[0] == t[0]
  {
  }

  /** Stripping a stripped string changes nothing. */
  lemma StripIdempotent(s: string)
    ensures Strip(Strip(s)) == Strip(s)
  {
    var r := Strip(s);
    assert StripStart(r) == r;
  }

  /** A string with no whitespace at either end is its own strip. */
  lemma StripNoSpaceEnds(s: string)
    requires |s| > 0 && !IsSpace(s[0]) && !IsSpace(s[|s| - 1])
    ensures Strip(s) == s
  {
    assert StripStart(s) == s;
  }

  // ---------------------------------------------------------------------------
  // startswith / endswith / rpartition
  // ---------------------------------------------------------------------------

  predicate StartsWith(s: string, prefix: string) {
    |prefix| <= |s| && s[..|prefix|] == prefix
  }

  predicate EndsWith(s: string, suffix: string) {
    |suffix| <= |s| && s[|s| - |suffix|..] == suffix
  }

  /** The position of the last `c` in `s`, if any. */
  function LastIndexOf(s: string, c: char): (r: Option<nat>)
    ensures r.None? <==> c !in s
    ensures r.Some? ==> r.value < |s| && s[r.value] == c && c !in s[r.value + 1..]
    decreases |s|
  {
    if |s| == 0 then None
    else if s[|s| - 1] == c then Some(|s| - 1)
    else
      var r := LastIndexOf(s[..|s| - 1], c);
      assert s[..|s| - 1] + [s[|s| - 1]] == s;
      r
  }

  /**
   * `s.rpartition(sep)`: `(head, sep, tail)` split at the last `sep`, or
   * `("", "", s)` when there is none.
   */
  function RPartition(s: string, sep: char): (r: (string, string, string))
    ensures r.0 + r.1 + r.2 == s
    ensures sep !in r.2
    ensures r.1 == [] <==> sep !in s
    ensures r.1 == [] ==> r.0 == []
    ensures r.1 != [] ==> r.1 == [sep]
  {
    match LastIndexOf(s, sep)
    case None => ([], [], s)
    case Some(k) =>
      assert s[..k] + [sep] + s[k + 1..] == s;
      (s[..k], [sep], s[k + 1..])
  }

  /** When `tail` holds no `sep`, `rpartition` splits `head + sep + tail` right before `tail`. */
  lemma RPartitionAt(head: string, sep: char, tail: string)
    requires sep !in tail
    ensures RPartition(head + [sep] + tail, sep) == (head, [sep], tail)
  {
    var s := head + [sep] + tail;
    assert s[|head|] == sep;
    var r := RPartition(s, sep);
    assert sep in s;
    assert |r.2| == |tail| && |r.0| == |head|;
    assert r.2 == (r.0 + r.1 + r.2)[|r.0| + 1..] == tail;
    assert r.0 == (r.0 + r.1 + r.2)[..|r.0|] == head;
  }

  // ---------------------------------------------------------------------------
  // int(s) and str(n)
  // ---------------------------------------------------------------------------

  predicate IsDigit(c: char) { '0' <= c <= '9' }

  predicate AllDigits(s: string) {
    forall i :: 0 <= i < |s| ==> IsDigit(s[i])
  }

  /** The value of a string of decimal digits. */
  function DigitsValue(s: string): (n: nat)
    requires AllDigits(s)
    decreases |s|
  {
    if |s| == 0 then 0
    else 10 * DigitsValue(s[..|s| - 1]) + (s[|s| - 1] as int - '0' as int)
  }

  /**
   * Python's `int(s)` on an optional sign followed by one or more ASCII
   * digits; `None` where Python raises `ValueError`.
   */
  function ParseInt(s: string): (r: Option<int>)
    ensures r.Some? <==> (|s| >= 1 && AllDigits(s))
                         || (|s| >= 2 && (s[0] == '-' || s[0] == '+') && AllDigits(s[1..]))
  {
    if |s| >= 1 && AllDigits(s) then Some(DigitsValue(s))
    else if |s| >= 2 && s[0] == '-' && AllDigits(s[1..]) then Some(0 - DigitsValue(s[1..]) as int)
    else if |s| >= 2 && s[0] == '+' && AllDigits(s[1..]) then Some(DigitsValue(s[1..]))
    else None
  }

  /** The decimal digits of a natural number, without leading zeros. */
  function NatToString(n: nat): (s: string)
    ensures |s| >= 1 && AllDigits(s)
    decreases n
  {
    if n < 10 then [('0' as int + n) as char]
    else NatToString(n / 10) + [('0' as int + n % 10) as char]
  }

  /** `str(n)` for a Python int. */
  function IntToString(n: int): string {
    if n >= 0 then NatToString(n) else "-" + NatToString(-n)
  }

  lemma {:induction false} NatToStringValue(n: nat)
    ensures DigitsValue(NatToString(n)) == n
    decreases n
  {
    if n >= 10 {
      NatToStringValue(n / 10);
      var s := NatToString(n);
      assert s[..|s| - 1] == NatToString(n / 10);
    }
  }

  /** `int(str(n)) == n` */
  lemma IntStringRoundTrip(n: int)
    ensures ParseInt(IntToString(n)) == Some(n)
  {
    if n >= 0 {
      NatToStringValue(n);
    } else {
      NatToStringValue(-n);
      var s := IntToString(n);
      assert s[1..] == NatToString(-n);
      assert s[0] == '-';
      assert !IsDigit(s[0]);
    }
  }

  // ---------------------------------------------------------------------------
  // re.sub(r'[<chars>]+', "", s)
  // ---------------------------------------------------------------------------

  /**
   * Deleting every run of characters from the class `chars`; because the
   * replacement is empty this is the same as deleting each such character.
   */
  function RemoveChars(s: string, chars: set<char>): (r: string)
    ensures |r| <= |s|
    ensures forall i :: 0 <= i < |r| ==> r[i] !in chars
    ensures multiset(r) <= multiset(s)
    decreases |s|
  {
    if |s| == 0 then []
    else
      var rest := RemoveChars(s[1..], chars);
      assert s == [s[0]] + s[1..];
      if s[0] in chars then rest else [s[0]] + rest
  }

  /** Characters outside the class are kept, in order. */
  lemma {:induction false} RemoveCharsKeepsOthers(s: string, chars: set<char>)
    requires forall i :: 0 <= i < |s| ==> s[i] !in chars
    ensures RemoveChars(s, chars) == s
    decreases |s|
  {
    if |s| > 0 {
      RemoveCharsKeepsOthers(s[1..], chars);
      assert [s[0]] + s[1..] == s;
    }
  }

  /** Deleting from a concatenation deletes from each part: the kept characters stay in order. */
  lemma {:induction false} RemoveCharsConcat(a: string, b: string, chars: set<char>)
    ensures RemoveChars(a + b, chars) == RemoveChars(a, chars) + RemoveChars(b, chars)
    decreases |a|
  {
    if |a| > 0 {
      assert (a + b)[1..] == a[1..] + b;
      RemoveCharsConcat(a[1..], b, chars);
    } else {
      assert a + b == b;
    }
  }

  /** Exactly the characters of the class are deleted: every other one keeps its count. */
  lemma {:induction false} RemoveCharsCounts(s: string, chars: set<char>, c: char)
    ensures multiset(RemoveChars(s, chars))[c] == if c in chars then 0 else multiset(s)[c]
    decreases |s|
  {
    if |s| > 0 {
      RemoveCharsCounts(s[1..], chars, c);
      assert s == [s[0]] + s[1..];
    }
  }

  /** Cleaning twice is the same as cleaning once. */
  lemma RemoveCharsIdempotent(s: string, chars: set<char>)
    ensures RemoveChars(RemoveChars(s, chars), chars) == RemoveChars(s, chars)
  {
    RemoveCharsKeepsOthers(RemoveChars(s, chars), chars);
  }
}
