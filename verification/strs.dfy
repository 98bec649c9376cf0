/** The Python string operations the modelled code relies on: `in`, `find`,
    `replace(pat, rep, 1)`, `split(sep)`, `sep.join(parts)`, `str(int)`,
    `int(digits)`, `isdigit` (ASCII only) and leading-whitespace matching. */
module Strs {
  import opened Wrappers

  // ---------------------------------------------------------------------------
  // Substrings

  predicate OccursAt(s: string, sub: string, k: nat) {
    k + |sub| <= |s| && s[k..k + |sub|] == sub
  }

  /** Python's `sub in s`. */
  predicate Contains(s: string, sub: string) {
    exists k: nat | k <= |s| :: OccursAt(s, sub, k)
  }

  /** Text stays in a string that is extended at the end. */
  lemma ContainsExtended(s: string, t: string, sub: string)
    requires Contains(s, sub)
    ensures Contains(s + t, sub)
  {
    var k: nat :| k <= |s| && OccursAt(s, sub, k);
    assert (s + t)[k..k + |sub|] == s[k..k + |sub|];
    assert OccursAt(s + t, sub, k);
  }

  /** Python's `s.find(sub)`, with None for -1: the first index where `sub` occurs. */
  function Find(s: string, sub: string): (r: Option<nat>)
    ensures r.Some? ==> OccursAt(s, sub, r.value)
    ensures r.Some? ==> forall k: nat :: k < r.value ==> !OccursAt(s, sub, k)
    ensures r.None? ==> !Contains(s, sub)
  {
    FindFrom(s, sub, 0)
  }

  function FindFrom(s: string, sub: string, from: nat): (r: Option<nat>)
    requires forall k: nat :: k < from ==> !OccursAt(s, sub, k)
    ensures r.Some? ==> from <= r.value && OccursAt(s, sub, r.value)
    ensures r.Some? ==> forall k: nat :: k < r.value ==> !OccursAt(s, sub, k)
    ensures r.None? ==> !Contains(s, sub)
    decreases |s| - from
  {
    if from + |sub| > |s| then
      assert forall k: nat :: OccursAt(s, sub, k) ==> k < from;
      None
    else if s[from..from + |sub|] == sub then Some(from)
    else FindFrom(s, sub, from + 1)
  }

  lemma FindIffContains(s: string, sub: string)
    ensures Find(s, sub).Some? <==> Contains(s, sub)
  {
  }

  /** Python's `s.replace(pat, rep, 1)`: the first occurrence of `pat` is
      replaced; without one, `s` is returned unchanged. An empty `pat` occurs
      at index 0, so `rep` is then prepended. */
  function ReplaceFirst(s: string, pat: string, rep: string): (r: string)
    ensures !Contains(s, pat) ==> r == s
    ensures Contains(s, pat) ==> |r| == |s| - |pat| + |rep|
  {
    match Find(s, pat)
    case None => s
    case Some(k) => s[..k] + rep + s[k + |pat|..]
  }

  lemma ReplaceFirstAt(s: string, pat: string, rep: string, k: nat)
    requires OccursAt(s, pat, k)
    requires forall j: nat :: j < k ==> !OccursAt(s, pat, j)
    ensures ReplaceFirst(s, pat, rep) == s[..k] + rep + s[k + |pat|..]
  {
  }

  /** Replacing a prefix by itself followed by `extra` inserts `extra` right
      after the prefix (for the empty prefix: at the front of the string). */
  lemma ReplacePrefixInsertsAfterIt(s: string, prefix: string, extra: string)
    requires |prefix| <= |s| && s[..|prefix|] == prefix
    ensures ReplaceFirst(s, prefix, prefix + extra) == prefix + extra + s[|prefix|..]
  {
    assert OccursAt(s, prefix, 0);
    ReplaceFirstAt(s, prefix, prefix + extra, 0);
  }

  /** Replacing the first occurrence of `pat` by `extra + pat` inserts
      `extra` right before it, and taking `extra` out again restores `s`. */
  lemma ReplaceFirstInsertsBefore(s: string, pat: string, extra: string)
    requires Contains(s, pat)
    ensures var k := Find(s, pat).value; var r := ReplaceFirst(s, pat, extra + pat);
      && |r| == |s| + |extra|
      && r[..k] == s[..k]
      && r[k..k + |extra|] == extra
      && r[k + |extra|..] == s[k..]
      && r[..k] + r[k + |extra|..] == s
  {
    FindIffContains(s, pat);
    var k := Find(s, pat).value;
    ReplaceFirstAt(s, pat, extra + pat, k);
    var r := ReplaceFirst(s, pat, extra + pat);
    assert s[k..] == pat + s[k + |pat|..];
    assert r == s[..k] + extra + s[k..];
    assert s[..k] + s[k..] == s;
  }

  /** With blanks only in front of the rest of `s`, blanks inserted after them
      could as well go in front of `s`. */
  lemma BlankPrefixInsert(s: string, prefix: string, extra: string)
    requires |prefix| <= |s| && s[..|prefix|] == prefix
    requires forall i :: 0 <= i < |prefix| ==> prefix[i] == ' '
    requires forall i :: 0 <= i < |extra| ==> extra[i] == ' '
    ensures prefix + extra + s[|prefix|..] == extra + s
  {
    BlanksCommute(prefix, extra);
    assert s == prefix + s[|prefix|..];
  }

  // ---------------------------------------------------------------------------
  // split / join on a one-character separator

  function IndexOfChar(s: string, c: char): (r: Option<nat>)
    ensures r.Some? ==> r.value < |s| && s[r.value] == c && c !in s[..r.value]
    ensures r.None? ==> c !in s
  {
    if |s| == 0 then None
    else if s[0] == c then Some(0)
    else match IndexOfChar(s[1..], c)
      case None => None
      case Some(k) => assert s[1..][..k] == s[1..k + 1]; Some(k + 1)
  }

  /** Python's `s.split(sep)` for a one-character separator. */
  function Split(s: string, sep: char): (parts: seq<string>)
    ensures |parts| >= 1
    ensures forall i :: 0 <= i < |parts| ==> sep !in parts[i]
    decreases |s|
  {
    match IndexOfChar(s, sep)
    case None => [s]
    case Some(k) => [s[..k]] + Split(s[k + 1..], sep)
  }

  /** Python's `sep.join(parts)`. */
  function Join(parts: seq<string>, sep: string): (r: string)
    ensures |parts| == 1 ==> r == parts[0]
    ensures |parts| == 0 ==> r == ""
  {
    if |parts| == 0 then ""
    else if |parts| == 1 then parts[0]
    else parts[0] + sep + Join(parts[1..], sep)
  }

  /** Splitting and joining back on the same separator restores the string. */
  lemma {:induction false} JoinSplit(s: string, sep: char)
    ensures Join(Split(s, sep), [sep]) == s
    decreases |s|
  {
    match IndexOfChar(s, sep)
    case None =>
    case Some(k) =>
      JoinSplit(s[k + 1..], sep);
      var rest := Split(s[k + 1..], sep);
      assert Split(s, sep) == [s[..k]] + rest;
      assert s == s[..k] + [sep] + s[k + 1..];
  }

  lemma {:induction false} IndexOfCharAfterFree(p: string, sep: char, rest: string)
    requires sep !in p
    ensures IndexOfChar(p + [sep] + rest, sep) == Some(|p|)
    decreases |p|
  {
    if |p| > 0 {
      assert (p + [sep] + rest)[1..] == p[1..] + [sep] + rest;
      IndexOfCharAfterFree(p[1..], sep, rest);
    }
  }

  /** Splitting text that starts with a separator-free part and a separator
      gives that part, then the split of the rest. */
  lemma SplitFront(p: string, sep: char, tail: string)
    requires sep !in p
    ensures Split(p + [sep] + tail, sep) == [p] + Split(tail, sep)
  {
    var j := p + [sep] + tail;
    IndexOfCharAfterFree(p, sep, tail);
    assert j[..|p|] == p;
    assert j[|p| + 1..] == tail;
  }

  /** Joining separator-free parts and splitting again restores the parts. */
  lemma {:induction false} SplitJoin(parts: seq<string>, sep: char)
    requires |parts| >= 1
    requires forall i :: 0 <= i < |parts| ==> sep !in parts[i]
    ensures Split(Join(parts, [sep]), sep) == parts
    decreases |parts|
  {
    if |parts| > 1 {
      var tail := Join(parts[1..], [sep]);
      assert Join(parts, [sep]) == parts[0] + [sep] + tail;
      SplitFront(parts[0], sep, tail);
      SplitJoin(parts[1..], sep);
      assert parts == [parts[0]] + parts[1..];
    } else {
      assert sep !in parts[0];
    }
  }

  /** Appending one more part to a join appends the separator and the part. */
  lemma {:induction false} JoinSnoc(parts: seq<string>, last: string, sep: string)
    requires |parts| >= 1
    ensures Join(parts + [last], sep) == Join(parts, sep) + sep + last
    decreases |parts|
  {
    if |parts| > 1 {
      assert (parts + [last])[1..] == parts[1..] + [last];
      JoinSnoc(parts[1..], last, sep);
    } else {
      assert (parts + [last])[1..] == [last];
    }
  }

  // ---------------------------------------------------------------------------
  // readlines / writelines

  /** `f.readlines()`: the text cut after every `\n`, each piece keeping its
      line end; a last piece without one is kept too. */
  function ReadLines(s: string): (lines: seq<string>)
    ensures forall i :: 0 <= i < |lines| ==> |lines[i]| > 0
    ensures forall i :: 0 <= i < |lines| - 1 ==> lines[i][|lines[i]| - 1] == '\n'
    decreases |s|
  {
    if |s| == 0 then []
    else match IndexOfChar(s, '\n')
      case None => [s]
      case Some(k) => [s[..k + 1]] + ReadLines(s[k + 1..])
  }

  /** `readlines` cuts at every line end: no piece holds a `\n` before its
      last character. With the contract of `ReadLines` and `ConcatReadLines`
      this fixes the split completely. */
  lemma {:induction false} ReadLinesCutAtEveryLineEnd(s: string)
    ensures forall i, j :: 0 <= i < |ReadLines(s)| && 0 <= j < |ReadLines(s)[i]| - 1 ==>
      ReadLines(s)[i][j] != '\n'
    decreases |s|
  {
    if |s| > 0 {
      match IndexOfChar(s, '\n')
      case None =>
      case Some(k) =>
        ReadLinesCutAtEveryLineEnd(s[k + 1..]);
        var rest := ReadLines(s[k + 1..]);
        var lines := ReadLines(s);
        assert lines == [s[..k + 1]] + rest;
        forall i, j | 0 <= i < |lines| && 0 <= j < |lines[i]| - 1
          ensures lines[i][j] != '\n'
        {
          if i == 0 {
            assert lines[0][j] == s[..k][j] && s[..k][j] in s[..k];
          } else {
            assert lines[i] == rest[i - 1];
            assert rest[i - 1][j] != '\n';
          }
        }
      }
  }

  /** `f.writelines(lines)`: the lines written one after the other. */
  function Concat(lines: seq<string>): string {
    if |lines| == 0 then "" else lines[0] + Concat(lines[1..])
  }

  /** Writing back the lines that were read gives the text read. */
  lemma {:induction false} ConcatReadLines(s: string)
    ensures Concat(ReadLines(s)) == s
    decreases |s|
  {
    if |s| > 0 {
      match IndexOfChar(s, '\n')
      case None =>
      case Some(k) =>
        ConcatReadLines(s[k + 1..]);
        assert ReadLines(s) == [s[..k + 1]] + ReadLines(s[k + 1..]);
        assert s == s[..k + 1] + s[k + 1..];
    }
  }

  // ---------------------------------------------------------------------------
  // Decimal numerals

  predicate IsDigit(c: char) {
    '0' <= c <= '9'
  }

  /** Python's `s.isdigit()`, restricted to ASCII digits: non-empty, all digits. */
  predicate IsDigits(s: string) {
    |s| > 0 && forall i :: 0 <= i < |s| ==> IsDigit(s[i])
  }

  function DigitChar(d: nat): (c: char)
    requires d < 10
    ensures IsDigit(c) && c as int - '0' as int == d
  {
    ('0' as int + d) as char
  }

  /** Python's `str(n)` for a natural number. */
  function Decimal(n: nat): (r: string)
    ensures IsDigits(r)
    ensures |r| > 1 ==> r[0] != '0'
  {
    if n < 10 then [DigitChar(n)] else Decimal(n / 10) + [DigitChar(n % 10)]
  }

  /** Python's `int(s)` on an all-digit string (leading zeros allowed). */
  function DigitsValue(s: string): (n: nat)
    requires forall i :: 0 <= i < |s| ==> IsDigit(s[i])
  {
    if |s| == 0 then 0
    else
      assert IsDigit(s[|s| - 1]);
      DigitsValue(s[..|s| - 1]) * 10 + (s[|s| - 1] as int - '0' as int)
  }

  /** Reading back a printed number gives the number. */
  lemma {:induction false} DigitsValueDecimal(n: nat)
    ensures DigitsValue(Decimal(n)) == n
  {
    if n >= 10 {
      DigitsValueDecimal(n / 10);
      var d := Decimal(n);
      assert d[..|d| - 1] == Decimal(n / 10);
    }
  }

  /** Python's `str(i)` for any integer. */
  function IntStr(i: int): (r: string)
    ensures i >= 0 ==> r == Decimal(i)
    ensures i < 0 ==> |r| > 1 && r[0] == '-' && r[1..] == Decimal(-i)
  {
    if i < 0 then "-" + Decimal(-i) else Decimal(i)
  }

  // ---------------------------------------------------------------------------
  // Whitespace

  /** Python's `\s` and `str.isspace` on ASCII: space, \t, \n, \v, \f, \r and
      the four information separators U+001C-U+001F. */
  predicate IsSpace(c: char) {
    c == ' ' || '\t' <= c <= '\r' || '\U{1C}' <= c <= '\U{1F}'
  }

  /** The text matched by `re.match(r'(\s*)', s)`: the leading whitespace. */
  function LeadingSpace(s: string): (r: string)
    ensures |r| <= |s| && s[..|r|] == r
    ensures forall i :: 0 <= i < |r| ==> IsSpace(r[i])
    ensures |r| < |s| ==> !IsSpace(s[|r|])
  {
    if |s| > 0 && IsSpace(s[0]) then [s[0]] + LeadingSpace(s[1..]) else ""
  }

  function Spaces(n: nat): (r: string)
    ensures |r| == n && forall i :: 0 <= i < n ==> r[i] == ' '
  {
    if n == 0 then "" else Spaces(n - 1) + " "
  }

  /** Two runs of blanks can be swapped. */
  lemma BlanksCommute(a: string, b: string)
    requires forall i :: 0 <= i < |a| ==> a[i] == ' '
    requires forall i :: 0 <= i < |b| ==> b[i] == ' '
    ensures a + b == b + a
  {
    assert forall i :: 0 <= i < |a + b| ==> (a + b)[i] == ' ' == (b + a)[i];
  }

  function Max(a: int, b: int): (m: int)
    ensures m >= a && m >= b && (m == a || m == b)
  {
    if a >= b then a else b
  }

  function Min(a: int, b: int): (m: int)
    ensures m <= a && m <= b && (m == a || m == b)
  {
    if a <= b then a else b
  }
}
