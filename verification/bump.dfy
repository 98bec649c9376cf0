/** bump.py: `increment_patch` on dotted versions, and the version assignment
    pattern `(__|)version(__|)\s*=\s*['"]([^'"]*)['"]` that `get_current_version`
    searches for and `bump_version` rewrites. The pattern is matched by a
    dedicated scanner: at any start position its match, if there is one, is
    determined without backtracking, and `Head` / `MatchHere` compute it. */
module Bump {
  import opened Wrappers
  import opened Strs

  // ---------------------------------------------------------------------------
  // increment_patch

  /** `increment_patch(version)`. */
  function IncrementPatch(version: string): string {
    var parts := Split(version, '.');
    if |parts| == 3 && IsDigits(parts[2]) then
      Join(parts[..2] + [Decimal(DigitsValue(parts[2]) + 1)], ".")
    else
      Join(parts + ["1"], ".")
  }

  /** A `major.minor.patch` version with a numeric patch keeps its first two
      parts, and reading the new patch gives the old one plus one. */
  lemma IncrementPatchNumeric(version: string)
    requires var parts := Split(version, '.'); |parts| == 3 && IsDigits(parts[2])
    ensures var parts := Split(version, '.'); var next := Split(IncrementPatch(version), '.');
      && |next| == 3 && next[..2] == parts[..2] && IsDigits(next[2])
      && DigitsValue(next[2]) == DigitsValue(parts[2]) + 1
      && IncrementPatch(version) == parts[0] + "." + parts[1] + "." + next[2]
  {
    var parts := Split(version, '.');
    var d := Decimal(DigitsValue(parts[2]) + 1);
    var nparts := [parts[0], parts[1], d];
    assert parts[..2] + [d] == nparts;
    var r := IncrementPatch(version);
    assert r == Join(nparts, ".");
    JoinThree(parts[0], parts[1], d, ".");
    DotFreeDigits(d);
    SplitJoin(nparts, '.');
    DigitsValueDecimal(DigitsValue(parts[2]) + 1);
  }

  lemma JoinThree(a: string, b: string, c: string, sep: string)
    ensures Join([a, b, c], sep) == a + sep + b + sep + c
  {
    assert [a, b, c][1..] == [b, c];
    assert [b, c][1..] == [c];
  }

  lemma DotFreeDigits(d: string)
    requires IsDigits(d)
    ensures '.' !in d
  {
    forall i | 0 <= i < |d| ensures d[i] != '.' {
      assert IsDigit(d[i]);
    }
  }

  /** Any other version gets a further part `1`. */
  lemma IncrementPatchOther(version: string)
    requires var parts := Split(version, '.'); !(|parts| == 3 && IsDigits(parts[2]))
    ensures IncrementPatch(version) == version + ".1"
  {
    var parts := Split(version, '.');
    JoinSnoc(parts, "1", ".");
    JoinSplit(version, '.');
  }

  // ---------------------------------------------------------------------------
  // The version assignment pattern

  predicate IsQuote(c: char) {
    c == '\'' || c == '"'
  }

  predicate QuoteFree(s: string) {
    forall i :: 0 <= i < |s| ==> !IsQuote(s[i])
  }


  // Characters of the pattern

  predicate DunderAt(w: string, k: nat) {
    k + 2 <= |w| && w[k] == '_' && w[k + 1] == '_'
  }

  predicate VersionAt(w: string, k: nat) {
    && k + 7 <= |w|
    && w[k] == 'v' && w[k + 1] == 'e' && w[k + 2] == 'r' && w[k + 3] == 's'
    && w[k + 4] == 'i' && w[k + 5] == 'o' && w[k + 6] == 'n'
  }

  /** Where `\s*` starting at `k` stops. */
  function SkipSpaces(w: string, k: nat): (r: nat)
    requires k <= |w|
    ensures k <= r <= |w|
    ensures r < |w| ==> !IsSpace(w[r])
    decreases |w| - k
  {
    if k < |w| && IsSpace(w[k]) then SkipSpaces(w, k + 1) else k
  }

  /** Everything `\s*` skips is whitespace. */
  lemma {:induction false} SkipSpacesSpaces(w: string, k: nat)
    requires k <= |w|
    ensures forall i :: k <= i < SkipSpaces(w, k) ==> IsSpace(w[i])
    decreases |w| - k
  {
    if k < |w| && IsSpace(w[k]) {
      SkipSpacesSpaces(w, k + 1);
    }
  }

  /** Where `[^'"]*['"]` starting at `k` stops: the first quote from `k` on. */
  function QuoteFrom(w: string, k: nat): (r: Option<nat>)
    requires k <= |w|
    ensures r.Some? ==> k <= r.value < |w| && IsQuote(w[r.value])
    ensures r.Some? ==> forall i :: k <= i < r.value ==> !IsQuote(w[i])
    ensures r.None? ==> forall i :: k <= i < |w| ==> !IsQuote(w[i])
    decreases |w| - k
  {
    if k == |w| then None
    else if IsQuote(w[k]) then Some(k)
    else QuoteFrom(w, k + 1)
  }

  /** Where `\s*=\s*['"]` starting at `j` ends, if it matches there. */
  function AssignEnd(w: string, j: nat): (r: Option<nat>)
    requires j <= |w|
    ensures r.Some? ==> j + 2 <= r.value <= |w|
  {
    var e := SkipSpaces(w, j);
    if e == |w| || w[e] != '=' then None
    else
      var o := SkipSpaces(w, e + 1);
      if o == |w| || !IsQuote(w[o]) then None
      else Some(o + 1)
  }

  /** The assignment is spaces and one `=`, then a quote. */
  lemma AssignShape(w: string, j: nat)
    requires j <= |w| && AssignEnd(w, j).Some?
    ensures forall k :: j <= k < AssignEnd(w, j).value - 1 ==> IsSpace(w[k]) || w[k] == '='
    ensures IsQuote(w[AssignEnd(w, j).value - 1])
  {
    SkipSpacesSpaces(w, j);
    SkipSpacesSpaces(w, SkipSpaces(w, j) + 1);
  }

  /** An assignment is determined by the characters it spans. */
  lemma AssignLocal(w1: string, w2: string, n: nat, j: nat)
    requires j <= |w1| && AssignEnd(w1, j).Some? && AssignEnd(w1, j).value <= n <= |w1| && n <= |w2|
    requires forall i :: 0 <= i < n ==> w1[i] == w2[i]
    ensures AssignEnd(w2, j) == AssignEnd(w1, j)
  {
    var e := SkipSpaces(w1, j);
    var o := SkipSpaces(w1, e + 1);
    SkipSpacesLocal(w1, w2, n, j);
    SkipSpacesLocal(w1, w2, n, e + 1);
    assert w2[e] == w1[e] && w2[o] == w1[o];
  }

  /** Putting `p` in front of `t` moves an assignment by `|p|`. */
  lemma AssignShift(p: string, t: string, j: nat)
    requires j <= |t| && AssignEnd(t, j).Some?
    ensures AssignEnd(p + t, j + |p|) == Some(AssignEnd(t, j).value + |p|)
  {
    var w := p + t;
    var e := SkipSpaces(t, j);
    var o := SkipSpaces(t, e + 1);
    SkipSpacesShift(p, t, j);
    SkipSpacesShift(p, t, e + 1);
    assert w[e + |p|] == t[e] && w[o + |p|] == t[o];
  }

  // ---------------------------------------------------------------------------
  // Matching at the front of a string

  /** The part `(__|)version(__|)\s*=\s*['"]` of a match: the lengths of the
      two groups, and where it ends. */
  datatype HeadInfo = HeadInfo(g1: nat, g2: nat, end: nat)

  predicate IsGroupLength(n: nat) {
    n == 0 || n == 2
  }

  /** The head of a match at the front of `w` (its shape is `HeadShape`). The
      first group is `__` exactly when `w` starts with `__version`, and the
      second exactly when `__` follows `version`: the other choice can never
      lead to a match, since neither `version` nor `\s*=` starts with `_`. */
  function Head(w: string): (r: Option<HeadInfo>)
    ensures r.Some? ==> IsGroupLength(r.value.g1) && IsGroupLength(r.value.g2)
    ensures r.Some? ==> r.value.g1 + 7 + r.value.g2 + 2 <= r.value.end <= |w|
  {
    var g1 := if DunderAt(w, 0) && VersionAt(w, 2) then 2 else 0;
    if !VersionAt(w, g1) then None
    else
      var g2 := if DunderAt(w, g1 + 7) then 2 else 0;
      match AssignEnd(w, g1 + 7 + g2)
      case None => None
      case Some(end) => Some(HeadInfo(g1, g2, end))
  }

  /** A head is `(__|)version(__|)`, then spaces and one `=`, then a quote. */
  lemma HeadShape(w: string)
    requires Head(w).Some?
    ensures var h := Head(w).value; var j := h.g1 + 7 + h.g2;
      && (forall k :: 0 <= k < h.g1 ==> w[k] == '_')
      && VersionAt(w, h.g1)
      && (forall k :: h.g1 + 7 <= k < j ==> w[k] == '_')
      && (forall k :: j <= k < h.end - 1 ==> IsSpace(w[k]) || w[k] == '=')
      && IsQuote(w[h.end - 1])
  {
    var h := Head(w).value;
    AssignShape(w, h.g1 + 7 + h.g2);
  }

  /** Inside a head, `v` occurs only at the start of `version`, and `_` only
      in the two groups. */
  lemma HeadChars(w: string)
    requires Head(w).Some?
    ensures var h := Head(w).value;
      forall k :: 0 <= k < h.end ==>
        && (w[k] == 'v' <==> k == h.g1)
        && (w[k] == '_' ==> k < h.g1 || h.g1 + 7 <= k < h.g1 + 7 + h.g2)
  {
    HeadShape(w);
  }

  /** A match of the pattern: groups 1, 2 and 3, and the matched length. */
  datatype Match = Match(g1: string, g2: string, value: string, len: nat)

  function Group(n: nat): string {
    if n == 0 then "" else "__"
  }

  predicate IsGroup(g: string) {
    g == "" || g == "__"
  }

  /** `re.match` of the pattern at the front of `w`. */
  function MatchHere(w: string): (r: Option<Match>)
    ensures r.Some? ==> 0 < r.value.len <= |w|
    ensures r.Some? ==> IsGroup(r.value.g1) && IsGroup(r.value.g2)
  {
    match Head(w)
    case None => None
    case Some(h) =>
      match QuoteFrom(w, h.end)
      case None => None
      case Some(k) =>
        var value := w[h.end..k];
        assert forall i :: 0 <= i < |value| ==> value[i] == w[h.end + i];
        Some(Match(Group(h.g1), Group(h.g2), value, k + 1))
  }

  /** A match is a head followed by a quote-free value and a closing quote. */
  lemma MatchHereShape(w: string)
    ensures MatchHere(w).Some? <==> Head(w).Some? && QuoteFrom(w, Head(w).value.end).Some?
    ensures MatchHere(w).Some? ==> var m := MatchHere(w).value; var h := Head(w).value;
      && m.g1 == Group(h.g1) && m.g2 == Group(h.g2)
      && m.len == h.end + |m.value| + 1 <= |w|
      && m.value == w[h.end..m.len - 1] && QuoteFree(m.value) && IsQuote(w[m.len - 1])
  {
  }

  predicate AllSpaces(s: string) {
    forall i :: 0 <= i < |s| ==> IsSpace(s[i])
  }

  /** `\s*` from `k` stops at `n` when everything between is whitespace and
      `w[n]` is not. */
  lemma {:induction false} SkipSpacesOver(w: string, k: nat, n: nat)
    requires k <= n < |w| && !IsSpace(w[n])
    requires forall i :: k <= i < n ==> IsSpace(w[i])
    ensures SkipSpaces(w, k) == n
    decreases n - k
  {
    if k < n {
      SkipSpacesOver(w, k + 1, n);
    }
  }

  /** `\s*=\s*['"]` is matched over spaces, one `=`, spaces and a quote. */
  lemma AssignComplete(w: string, j: nat, n1: nat, n2: nat)
    requires j + n1 + n2 + 2 <= |w|
    requires forall i :: j <= i < j + n1 ==> IsSpace(w[i])
    requires w[j + n1] == '='
    requires forall i :: j + n1 + 1 <= i < j + n1 + 1 + n2 ==> IsSpace(w[i])
    requires IsQuote(w[j + n1 + 1 + n2])
    ensures AssignEnd(w, j) == Some(j + n1 + n2 + 2)
  {
    SkipSpacesOver(w, j, j + n1);
    SkipSpacesOver(w, j + n1 + 1, j + n1 + 1 + n2);
  }

  /** The head is found wherever `w` has the shape `(__|)version(__|)`,
      spaces, `=`, spaces and a quote, with group lengths `g1` and `g2`. */
  lemma HeadComplete(w: string, g1: nat, g2: nat, n1: nat, n2: nat)
    requires IsGroupLength(g1) && IsGroupLength(g2) && g1 + 7 + g2 + n1 + n2 + 2 <= |w|
    requires forall i :: 0 <= i < g1 ==> w[i] == '_'
    requires VersionAt(w, g1)
    requires forall i :: g1 + 7 <= i < g1 + 7 + g2 ==> w[i] == '_'
    requires forall i :: g1 + 7 + g2 <= i < g1 + 7 + g2 + n1 ==> IsSpace(w[i])
    requires w[g1 + 7 + g2 + n1] == '='
    requires forall i :: g1 + 7 + g2 + n1 + 1 <= i < g1 + 7 + g2 + n1 + 1 + n2 ==> IsSpace(w[i])
    requires IsQuote(w[g1 + 7 + g2 + n1 + 1 + n2])
    ensures Head(w) == Some(HeadInfo(g1, g2, g1 + 7 + g2 + n1 + n2 + 2))
  {
    var j := g1 + 7 + g2;
    assert DunderAt(w, 0) && VersionAt(w, 2) <==> g1 == 2;
    assert DunderAt(w, g1 + 7) <==> g2 == 2 by {
      if g2 == 0 {
        assert IsSpace(w[j]) || w[j] == '=';
      }
    }
    AssignComplete(w, j, n1, n2);
  }

  /** The match is found wherever `w` has a head followed by a quote-free
      value and a closing quote. */
  lemma MatchComplete(w: string, g1: nat, g2: nat, h: nat, v: string)
    requires Head(w) == Some(HeadInfo(g1, g2, h))
    requires h + |v| < |w| && QuoteFree(v) && IsQuote(w[h + |v|])
    requires forall i :: h <= i < h + |v| ==> w[i] == v[i - h]
    ensures MatchHere(w) == Some(Match(Group(g1), Group(g2), v, h + |v| + 1))
  {
    assert QuoteFrom(w, h) == Some(h + |v|);
    assert w[h..h + |v|] == v;
  }

  /** Where each part of the head `(__|)version(__|)`, spaces, `=`, spaces
      and a quote sits. */
  lemma HeadShapeChars(a: string, b: string, sp1: string, sp2: string, q1: char, head: string)
    requires head == a + "version" + b + sp1 + "=" + sp2 + [q1]
    ensures var j := |a| + 7 + |b|; var e := j + |sp1|;
      && |head| == e + |sp2| + 2
      && (forall i :: 0 <= i < |a| ==> head[i] == a[i])
      && VersionAt(head, |a|)
      && (forall i :: |a| + 7 <= i < j ==> head[i] == b[i - |a| - 7])
      && (forall i :: j <= i < e ==> head[i] == sp1[i - j])
      && head[e] == '='
      && (forall i :: e + 1 <= i < |head| - 1 ==> head[i] == sp2[i - e - 1])
      && head[|head| - 1] == q1
  {
    var x1 := a + "version";
    var x2 := x1 + b;
    var x3 := x2 + sp1;
    var x4 := x3 + "=";
    var x5 := x4 + sp2;
    assert head == x5 + [q1];
    assert forall i :: 0 <= i < |x5| ==> head[i] == x5[i];
    assert forall i :: 0 <= i < |x4| ==> x5[i] == x4[i];
    assert forall i :: 0 <= i < |x3| ==> x4[i] == x3[i];
    assert forall i :: 0 <= i < |x2| ==> x3[i] == x2[i];
    assert forall i :: 0 <= i < |x1| ==> x2[i] == x1[i];
    assert forall i :: 0 <= i < 7 ==> x1[|a| + i] == "version"[i];
  }

  /** The head is found over text whose parts sit where `HeadShapeChars`
      puts them. */
  lemma HeadAtShape(a: string, b: string, sp1: string, sp2: string, q1: char, w: string)
    requires IsGroup(a) && IsGroup(b) && AllSpaces(sp1) && AllSpaces(sp2) && IsQuote(q1)
    requires var j := |a| + 7 + |b|; var e := j + |sp1|; var h := e + |sp2| + 2;
      && h <= |w|
      && (forall i :: 0 <= i < |a| ==> w[i] == a[i])
      && VersionAt(w, |a|)
      && (forall i :: |a| + 7 <= i < j ==> w[i] == b[i - |a| - 7])
      && (forall i :: j <= i < e ==> w[i] == sp1[i - j])
      && w[e] == '='
      && (forall i :: e + 1 <= i < h - 1 ==> w[i] == sp2[i - e - 1])
      && w[h - 1] == q1
    ensures Head(w) == Some(HeadInfo(|a|, |b|, |a| + 7 + |b| + |sp1| + |sp2| + 2))
  {
    HeadComplete(w, |a|, |b|, |sp1|, |sp2|);
  }

  /** The head of `(__|)version(__|)`, spaces, `=`, spaces and a quote spans
      all of it. */
  lemma HeadOfShape(a: string, b: string, sp1: string, sp2: string, q1: char)
    requires IsGroup(a) && IsGroup(b) && AllSpaces(sp1) && AllSpaces(sp2) && IsQuote(q1)
    ensures var head := a + "version" + b + sp1 + "=" + sp2 + [q1];
      Head(head) == Some(HeadInfo(|a|, |b|, |head|))
  {
    var head := a + "version" + b + sp1 + "=" + sp2 + [q1];
    HeadShapeChars(a, b, sp1, sp2, q1, head);
    HeadAtShape(a, b, sp1, sp2, q1, head);
  }

  /** The text after a head: a value, its closing quote, and the rest. */
  lemma AfterHead(head: string, v: string, q2: char, rest: string)
    ensures var w := head + v + [q2] + rest;
      && |head| + |v| < |w| && w[|head| + |v|] == q2
      && (forall i :: 0 <= i < |head| ==> head[i] == w[i])
      && (forall i :: |head| <= i < |head| + |v| ==> w[i] == v[i - |head|])
  {
  }

  /** The scanner is complete: every text of the pattern's shape is matched,
      with its groups, its value and its length. */
  lemma MatchHereComplete(a: string, b: string, sp1: string, sp2: string,
                          q1: char, v: string, q2: char, rest: string)
    requires IsGroup(a) && IsGroup(b) && AllSpaces(sp1) && AllSpaces(sp2)
    requires IsQuote(q1) && IsQuote(q2) && QuoteFree(v)
    ensures var head := a + "version" + b + sp1 + "=" + sp2 + [q1];
      MatchHere(head + v + [q2] + rest) == Some(Match(a, b, v, |head| + |v| + 1))
  {
    var head := a + "version" + b + sp1 + "=" + sp2 + [q1];
    var w := head + v + [q2] + rest;
    HeadOfShape(a, b, sp1, sp2, q1);
    AfterHead(head, v, q2, rest);
    HeadLocal(head, w, |head|);
    MatchComplete(w, |a|, |b|, |head|, v);
    assert Group(|a|) == a && Group(|b|) == b;
  }

  /** `re.search` from position `from` on: the first position with a match. */
  function FirstMatchFrom(s: string, from: nat): (r: Option<(nat, Match)>)
    requires from <= |s| + 1
    ensures r.Some? ==> from <= r.value.0 <= |s| && MatchHere(s[r.value.0..]) == Some(r.value.1)
    decreases |s| + 1 - from
  {
    if from > |s| then None
    else match MatchHere(s[from..])
      case Some(m) => Some((from, m))
      case None => FirstMatchFrom(s, from + 1)
  }

  function FirstMatch(s: string): (r: Option<(nat, Match)>)
    ensures r.Some? ==> r.value.0 <= |s| && MatchHere(s[r.value.0..]) == Some(r.value.1)
  {
    FirstMatchFrom(s, 0)
  }

  /** The search finds the earliest match: nothing matches before the
      position it returns. */
  lemma {:induction false} FirstMatchFromEarliest(s: string, from: nat)
    requires from <= |s| + 1 && FirstMatchFrom(s, from).Some?
    ensures forall q :: from <= q < FirstMatchFrom(s, from).value.0 ==> MatchHere(s[q..]).None?
    decreases |s| + 1 - from
  {
    if MatchHere(s[from..]).None? {
      FirstMatchFromEarliest(s, from + 1);
    }
  }

  /** When the search finds nothing, nothing matches anywhere. */
  lemma {:induction false} FirstMatchFromNone(s: string, from: nat)
    requires from <= |s| + 1 && FirstMatchFrom(s, from).None?
    ensures forall q :: from <= q <= |s| ==> MatchHere(s[q..]).None?
    decreases |s| + 1 - from
  {
    if from <= |s| {
      FirstMatchFromNone(s, from + 1);
    }
  }

  /** The replacement `f'{m.group(1)}version{m.group(2)} = "{new_version}"'`. */
  function Replacement(m: Match, newVersion: string): string {
    m.g1 + "version" + m.g2 + " = \"" + newVersion + "\""
  }

  /** `re.sub(pattern, replacement, content)`: every match, left to right and
      not overlapping, becomes its replacement; the text between matches is
      kept. */
  function Rewrite(content: string, newVersion: string): (r: string)
    ensures FirstMatch(content).None? ==> r == content
    ensures FirstMatch(content).Some? ==> var (p, m) := FirstMatch(content).value;
      var done := content[..p] + Replacement(m, newVersion);
      |done| <= |r| && r[..|done|] == done
    decreases |content|
  {
    match FirstMatch(content)
    case None => content
    case Some((p, m)) =>
      var done := content[..p] + Replacement(m, newVersion);
      var r := done + Rewrite(content[p + m.len..], newVersion);
      assert r[..|done|] == done;
      r
  }

  /** `get_current_version(file_path)`; None is a missing file. */
  function GetCurrentVersion(file: Option<string>): (version: string)
    ensures file.None? ==> version == "0.0.0"
    ensures file.Some? && FirstMatch(file.value).None? ==> version == "0.0.0"
    ensures file.Some? && FirstMatch(file.value).Some? ==> version == FirstMatch(file.value).value.1.value
  {
    match file
    case None => "0.0.0"
    case Some(content) =>
      match FirstMatch(content)
      case None => "0.0.0"
      case Some((_, m)) => m.value
  }

  /** The version read is group 3 of the match at the leftmost position where
      the pattern matches (`MatchHereShape` says what that group holds). */
  lemma CurrentVersionIsLeftmostMatch(content: string, p: nat)
    requires p <= |content| && MatchHere(content[p..]).Some?
    requires forall q :: 0 <= q < p ==> MatchHere(content[q..]).None?
    ensures GetCurrentVersion(Some(content)) == MatchHere(content[p..]).value.value
  {
    FirstMatchFromAt(content, 0, p);
  }

  /** The version read is always free of quotes: the pattern's group 3
      cannot hold one, and the fallback `0.0.0` has none. */
  lemma CurrentVersionQuoteFree(file: Option<string>)
    ensures QuoteFree(GetCurrentVersion(file))
  {
    if file.Some? && FirstMatch(file.value).Some? {
      var (p, m) := FirstMatch(file.value).value;
      MatchHereShape(file.value[p..]);
    }
  }

  /** `bump_version(file_path, new_version)`: whether the file was rewritten,
      and the file afterwards. */
  function BumpVersion(file: Option<string>, newVersion: string): (r: (bool, Option<string>))
    ensures file.None? ==> r == (false, None)
    ensures file.Some? ==> r.1 == Some(Rewrite(file.value, newVersion))
    ensures file.Some? ==> (r.0 <==> Rewrite(file.value, newVersion) != file.value)
  {
    match file
    case None => (false, None)
    case Some(content) =>
      var updated := Rewrite(content, newVersion);
      if updated != content then (true, Some(updated)) else (false, file)
  }

  // ---------------------------------------------------------------------------
  // Rewriting is idempotent

  /** The characters of a replacement followed by `rest`. */
  lemma ReplacementChars(m: Match, newVersion: string, rest: string)
    requires IsGroup(m.g1) && IsGroup(m.g2)
    ensures var w := Replacement(m, newVersion) + rest;
      var a := |m.g1|; var j := a + 7 + |m.g2|;
      && |w| == j + 5 + |newVersion| + |rest|
      && (forall k :: 0 <= k < a ==> w[k] == '_')
      && VersionAt(w, a)
      && (forall k :: a + 7 <= k < j ==> w[k] == '_')
      && w[j] == ' ' && w[j + 1] == '=' && w[j + 2] == ' ' && w[j + 3] == '"'
      && (forall k :: 0 <= k < |newVersion| ==> w[j + 4 + k] == newVersion[k])
      && w[j + 4 + |newVersion|] == '"'
  {
    var w := Replacement(m, newVersion) + rest;
    var a := |m.g1|;
    var j := a + 7 + |m.g2|;
    var front := m.g1 + "version" + m.g2 + " = \"";
    assert w == front + newVersion + ("\"" + rest);
    assert |front| == j + 4;
    forall k | 0 <= k < j + 4 ensures w[k] == front[k] { }
    forall k | 0 <= k < |newVersion| ensures w[j + 4 + k] == newVersion[k] { }
  }

  /** The head of a replacement spans its groups, ` = ` and the opening quote. */
  lemma ReplacementHead(m: Match, newVersion: string, rest: string)
    requires IsGroup(m.g1) && IsGroup(m.g2)
    ensures var j := |m.g1| + 7 + |m.g2|;
      Head(Replacement(m, newVersion) + rest) == Some(HeadInfo(|m.g1|, |m.g2|, j + 4))
  {
    var w := Replacement(m, newVersion) + rest;
    var j := |m.g1| + 7 + |m.g2|;
    ReplacementChars(m, newVersion, rest);
    assert SkipSpaces(w, j) == j + 1;
    assert SkipSpaces(w, j + 2) == j + 3;
    assert AssignEnd(w, j) == Some(j + 4);
  }

  /** A replacement matches itself, with the new version as group 3. */
  lemma ReplacementMatches(m: Match, newVersion: string, rest: string)
    requires IsGroup(m.g1) && IsGroup(m.g2) && QuoteFree(newVersion)
    ensures MatchHere(Replacement(m, newVersion) + rest) ==
      Some(Match(m.g1, m.g2, newVersion, |Replacement(m, newVersion)|))
  {
    ReplacementHead(m, newVersion, rest);
    ReplacementValue(m, newVersion, rest);
    assert Group(|m.g1|) == m.g1 && Group(|m.g2|) == m.g2;
  }

  /** The value of a replacement runs from after its opening quote to the
      closing one. */
  lemma ReplacementValue(m: Match, newVersion: string, rest: string)
    requires IsGroup(m.g1) && IsGroup(m.g2) && QuoteFree(newVersion)
    ensures var w := Replacement(m, newVersion) + rest; var j := |m.g1| + 7 + |m.g2|;
      && |Replacement(m, newVersion)| == j + 5 + |newVersion|
      && QuoteFrom(w, j + 4) == Some(j + 4 + |newVersion|)
      && w[j + 4..j + 4 + |newVersion|] == newVersion
  {
    var w := Replacement(m, newVersion) + rest;
    var j := |m.g1| + 7 + |m.g2|;
    ReplacementChars(m, newVersion, rest);
    assert w[j + 4..j + 4 + |newVersion|] == newVersion;
  }

  /** `\s*` sees the same spaces in two strings that agree up to where it stops. */
  lemma {:induction false} SkipSpacesLocal(w1: string, w2: string, n: nat, k: nat)
    requires k <= n <= |w1| && n <= |w2| && SkipSpaces(w1, k) < n
    requires forall i :: 0 <= i < n ==> w1[i] == w2[i]
    ensures SkipSpaces(w2, k) == SkipSpaces(w1, k)
    decreases n - k
  {
    if IsSpace(w1[k]) {
      SkipSpacesLocal(w1, w2, n, k + 1);
    }
  }

  /** A head is determined by the characters it spans. */
  lemma HeadLocal(w1: string, w2: string, n: nat)
    requires Head(w1).Some? && Head(w1).value.end <= n <= |w1| && n <= |w2|
    requires forall i :: 0 <= i < n ==> w1[i] == w2[i]
    ensures Head(w2) == Head(w1)
  {
    var h := Head(w1).value;
    assert DunderAt(w2, 0) == DunderAt(w1, 0) && VersionAt(w2, 2) == VersionAt(w1, 2);
    assert VersionAt(w2, h.g1) && DunderAt(w2, h.g1 + 7) == DunderAt(w1, h.g1 + 7);
    AssignLocal(w1, w2, n, h.g1 + 7 + h.g2);
  }

  /** Putting `p` in front of `t` moves where `\s*` stops by `|p|`. */
  lemma {:induction false} SkipSpacesShift(p: string, t: string, k: nat)
    requires k <= |t|
    ensures SkipSpaces(p + t, k + |p|) == SkipSpaces(t, k) + |p|
    decreases |t| - k
  {
    if k < |t| && IsSpace(t[k]) {
      assert (p + t)[k + |p|] == t[k];
      SkipSpacesShift(p, t, k + 1);
    }
  }

  /** A `v`, or a `_` two before a `v`, at a position `c > 0` lies beyond
      the head, unless it is the `v` of `__version`. */
  lemma HeadAcrossAt(w: string, c: nat)
    requires Head(w).Some? && 0 < c && c + 2 < |w|
    requires w[c] == 'v' || (w[c] == '_' && w[c + 2] == 'v')
    ensures Head(w).value.end <= c || (c == 2 && w[c] == 'v' && DunderAt(w, 0))
  {
    HeadShape(w);
    HeadChars(w);
  }

  /** `__` in front of a head without the first group gives a head with it. */
  lemma HeadInFront(t: string)
    requires Head(t).Some? && Head(t).value.g1 == 0
    ensures var h := Head(t).value; Head("__" + t) == Some(HeadInfo(2, h.g2, h.end + 2))
  {
    var w := "__" + t;
    var h := Head(t).value;
    assert DunderAt(w, 0) && VersionAt(w, 2);
    assert w[9] == t[7] && w[10] == t[8];
    AssignShift("__", t, 7 + h.g2);
  }

  /** `__` in front of a match without the first group gives a match. */
  lemma UnderscoresInFront(t: string)
    requires MatchHere(t).Some? && MatchHere(t).value.g1 == ""
    ensures MatchHere("__" + t).Some?
  {
    var w := "__" + t;
    MatchHereShape(t);
    MatchHereShape(w);
    var h := Head(t).value;
    HeadInFront(t);
    var q := QuoteFrom(t, h.end).value;
    assert w[q + 2] == t[q];
  }

  /** A head followed, anywhere later, by a quote gives a match; the head
      carries over to any string that agrees with it up to where it ends. */
  lemma MatchFromHead(w1: string, w2: string, n: nat, j: nat)
    requires Head(w1).Some? && Head(w1).value.end <= n <= |w1| && n <= j < |w2|
    requires forall i :: 0 <= i < n ==> w1[i] == w2[i]
    requires IsQuote(w2[j])
    ensures MatchHere(w2).Some?
  {
    HeadLocal(w1, w2, n);
    MatchHereShape(w2);
  }

  /** A replacement starts with `v`, or with `_` two before a `v`. */
  lemma ReplacementStart(m: Match, newVersion: string, rest: string)
    requires IsGroup(m.g1)
    ensures var w := Replacement(m, newVersion) + rest;
      && |w| > 9
      && (m.g1 == "" ==> w[0] == 'v')
      && (m.g1 == "__" ==> w[0] == '_' && w[2] == 'v')
  {
    var w := Replacement(m, newVersion) + rest;
    assert w == m.g1 + ("version" + m.g2 + " = \"" + newVersion + "\"" + rest);
  }

  /** A head that starts in `u`, right before a replacement, ends inside
      `u`, unless `u` is `__` and the replacement has no first group. */
  lemma HeadBeforeReplacement(u: string, m: Match, newVersion: string, rest: string)
    requires |u| > 0 && IsGroup(m.g1) && Head(u + (Replacement(m, newVersion) + rest)).Some?
    ensures var h := Head(u + (Replacement(m, newVersion) + rest)).value;
      h.end <= |u| || (u == "__" && m.g1 == "")
  {
    var rr := Replacement(m, newVersion) + rest;
    var w := u + rr;
    var c := |u|;
    ReplacementStart(m, newVersion, rest);
    assert w[c] == rr[0] && w[c + 2] == rr[2];
    HeadAcrossAt(w, c);
    if Head(w).value.end > c {
      assert u == w[..2] == "__";
    }
  }

  /** A head that ends inside `u` also starts a match in `u + t` when `t`
      starts with a match. */
  lemma HeadInGap(u: string, t: string, m: Match, y: string)
    requires MatchHere(t) == Some(m) && Head(u + y).Some? && Head(u + y).value.end <= |u|
    ensures MatchHere(u + t).Some?
  {
    var c := |u|;
    MatchHereShape(t);
    var s := u + t;
    assert s[c + m.len - 1] == t[m.len - 1];
    MatchFromHead(u + y, s, c, c + m.len - 1);
  }

  /** Where the original text had no match at the start of `u`, the rewritten
      text, with a replacement right after `u`, has none either. */
  lemma NoNewMatchBefore(u: string, t: string, m: Match, newVersion: string, rest: string)
    requires |u| > 0 && MatchHere(u + t).None? && MatchHere(t) == Some(m)
    requires MatchHere("__" + t).None? || u != "__"
    requires QuoteFree(newVersion)
    ensures MatchHere(u + Replacement(m, newVersion) + rest).None?
  {
    var w := u + (Replacement(m, newVersion) + rest);
    assert w == u + Replacement(m, newVersion) + rest;
    if Head(w).Some? {
      HeadBeforeReplacement(u, m, newVersion, rest);
      var c := |u|;
      if Head(w).value.end <= c {
        HeadInGap(u, t, m, Replacement(m, newVersion) + rest);
      } else {
        UnderscoresInFront(t);
      }
    }
  }

  /** Rewriting text that has been rewritten to the same quote-free version
      changes nothing. */
  lemma {:induction false} RewriteIdempotent(content: string, newVersion: string)
    requires QuoteFree(newVersion)
    ensures Rewrite(Rewrite(content, newVersion), newVersion) == Rewrite(content, newVersion)
    decreases |content|
  {
    match FirstMatch(content)
    case None =>
    case Some((p, m)) =>
      var t := content[p + m.len..];
      var repl := Replacement(m, newVersion);
      var x := Rewrite(t, newVersion);
      RewriteStep(content, newVersion, p, m);
      var w := content[..p] + repl + x;
      var m' := Match(m.g1, m.g2, newVersion, |repl|);
      FirstMatchAfterRewrite(content, p, m, newVersion, x);
      RewriteStep(w, newVersion, p, m');
      assert w[..p] == content[..p] && w[p + |repl|..] == x;
      assert Replacement(m', newVersion) == repl;
      RewriteIdempotent(t, newVersion);
  }

  /** One step of the rewrite: the text before the first match, its
      replacement, and the rewrite of the rest. */
  lemma RewriteStep(s: string, newVersion: string, p: nat, m: Match)
    requires FirstMatch(s) == Some((p, m))
    ensures p + m.len <= |s|
    ensures Rewrite(s, newVersion) == s[..p] + Replacement(m, newVersion) + Rewrite(s[p + m.len..], newVersion)
  {
    assert MatchHere(s[p..]) == Some(m);
  }

  /** The first match of rewritten text is where the first original match
      was, now holding the new version. */
  lemma FirstMatchAfterRewrite(content: string, p: nat, m: Match, newVersion: string, x: string)
    requires FirstMatch(content) == Some((p, m)) && QuoteFree(newVersion)
    ensures var repl := Replacement(m, newVersion);
      FirstMatch(content[..p] + repl + x) == Some((p, Match(m.g1, m.g2, newVersion, |repl|)))
  {
    var repl := Replacement(m, newVersion);
    var w := content[..p] + repl + x;
    forall q | 0 <= q < p ensures MatchHere(w[q..]).None? {
      NoMatchBeforeRewritten(content, p, m, newVersion, x, q);
    }
    assert w[p..] == repl + x;
    ReplacementMatches(m, newVersion, x);
    FirstMatchFromAt(w, 0, p);
  }

  /** Before the first original match, rewritten text has no match. */
  lemma NoMatchBeforeRewritten(content: string, p: nat, m: Match, newVersion: string, x: string, q: nat)
    requires FirstMatch(content) == Some((p, m)) && QuoteFree(newVersion) && q < p
    ensures MatchHere((content[..p] + Replacement(m, newVersion) + x)[q..]).None?
  {
    var g := content[..p];
    var t := content[p..];
    var repl := Replacement(m, newVersion);
    var w := g + repl + x;
    var u := g[q..];
    FirstMatchFromEarliest(content, 0);
    assert content[q..] == u + t;
    assert w[q..] == u + repl + x;
    if u == "__" {
      assert content[q..] == "__" + t;
    }
    NoNewMatchBefore(u, t, m, newVersion, x);
  }

  /** The search finds `p` when `p` matches and nothing from `from` on before it does. */
  lemma {:induction false} FirstMatchFromAt(s: string, from: nat, p: nat)
    requires from <= p <= |s| && MatchHere(s[p..]).Some?
    requires forall q :: from <= q < p ==> MatchHere(s[q..]).None?
    ensures FirstMatchFrom(s, from) == Some((p, MatchHere(s[p..]).value))
    decreases p - from
  {
    if from < p {
      FirstMatchFromAt(s, from + 1, p);
    }
  }

  /** After a rewrite, the text's version is the new one. */
  lemma VersionAfterRewrite(content: string, newVersion: string)
    requires FirstMatch(content).Some? && QuoteFree(newVersion)
    ensures GetCurrentVersion(Some(Rewrite(content, newVersion))) == newVersion
  {
    var (p, m) := FirstMatch(content).value;
    var x := Rewrite(content[p + m.len..], newVersion);
    RewriteStep(content, newVersion, p, m);
    FirstMatchAfterRewrite(content, p, m, newVersion, x);
  }

  /** After a bump, reading the file's version gives the new one. */
  lemma VersionAfterBump(content: string, newVersion: string)
    requires FirstMatch(content).Some? && QuoteFree(newVersion)
    ensures GetCurrentVersion(BumpVersion(Some(content), newVersion).1) == newVersion
  {
    VersionAfterRewrite(content, newVersion);
  }

  /** Bumping twice to the same quote-free version: the second bump reports
      no change and leaves the file as the first one wrote it. */
  lemma BumpTwice(file: Option<string>, newVersion: string)
    requires QuoteFree(newVersion)
    ensures var once := BumpVersion(file, newVersion).1;
      BumpVersion(once, newVersion) == (false, once)
  {
    if file.Some? {
      RewriteIdempotent(file.value, newVersion);
    }
  }
}
