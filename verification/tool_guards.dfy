/** What `wrap_tools.py` and `add_feature_checks.py` share: the marker of a
    tool registration line, the guard text, the search for `name="..."`, the
    look-ahead window, and the layout of a pass that puts a guard line in
    front of some input lines. */
module ToolGuards {
  import opened Wrappers
  import opened Strs

  /** A tool registration line contains this text. */
  const Marker := "tool_definitions.append(types.Tool("

  /** A guard line contains this text. */
  const GuardText := "if feature_config.is_tool_enabled"

  /** `if feature_config.is_tool_enabled("<name>"):` after `indent`, without
      the line end. */
  function GuardLine(indent: string, name: string): (r: string)
    ensures Contains(r, GuardText)
  {
    var r := indent + GuardText + "(\"" + name + "\"):";
    assert r[|indent|..|indent| + |GuardText|] == GuardText;
    assert OccursAt(r, GuardText, |indent|);
    r
  }

  // ---------------------------------------------------------------------------
  // re.search(r'name="([^"]+)"', line)

  /** `name="` starts at `p`. */
  predicate NameKeyAt(s: string, p: nat) {
    && p + 6 <= |s|
    && s[p] == 'n' && s[p + 1] == 'a' && s[p + 2] == 'm' && s[p + 3] == 'e'
    && s[p + 4] == '=' && s[p + 5] == '"'
  }

  /** The first `"` from `k` on. */
  function QuoteFrom(s: string, k: nat): (r: Option<nat>)
    requires k <= |s|
    ensures r.Some? ==> k <= r.value < |s| && s[r.value] == '"'
    ensures r.Some? ==> forall i :: k <= i < r.value ==> s[i] != '"'
    ensures r.None? ==> forall i :: k <= i < |s| ==> s[i] != '"'
    decreases |s| - k
  {
    if k == |s| then None
    else if s[k] == '"' then Some(k)
    else QuoteFrom(s, k + 1)
  }

  /** Group 1 of the pattern matched at `p`. `[^"]+` is greedy and must be
      followed by `"`, so it runs to the next quote and needs at least one
      character before it. */
  function NameAt(s: string, p: nat): (r: Option<string>)
    ensures r.Some? ==> |r.value| > 0 && '"' !in r.value
    ensures r.Some? ==> NameKeyAt(s, p) && p + 6 + |r.value| < |s|
    ensures r.Some? ==> s[p + 6..p + 6 + |r.value|] == r.value && s[p + 6 + |r.value|] == '"'
  {
    if !NameKeyAt(s, p) then None
    else match QuoteFrom(s, p + 6)
      case None => None
      case Some(q) =>
        if q == p + 6 then None
        else
          var name := s[p + 6..q];
          assert forall i :: 0 <= i < |name| ==> name[i] == s[p + 6 + i];
          Some(name)
  }

  /** The search from position `p` on. */
  function NameFrom(s: string, p: nat): (r: Option<string>)
    ensures r.Some? ==> |r.value| > 0 && '"' !in r.value
    decreases |s| + 1 - p
  {
    if p > |s| then None
    else match NameAt(s, p)
      case Some(name) => Some(name)
      case None => NameFrom(s, p + 1)
  }

  /** The tool name in one line, if it has one. */
  function NameIn(s: string): (r: Option<string>)
    ensures r.Some? ==> |r.value| > 0 && '"' !in r.value
  {
    NameFrom(s, 0)
  }

  /** The search finds the leftmost match: none starts before the position
      it reports, and none at all when it reports nothing. */
  lemma {:induction false} NameFromLeftmost(s: string, p: nat)
    ensures NameFrom(s, p).None? ==> forall q :: p <= q ==> NameAt(s, q).None?
    ensures NameFrom(s, p).Some? ==>
      exists q :: (p <= q <= |s| && NameAt(s, q) == NameFrom(s, p) &&
        forall q' :: p <= q' < q ==> NameAt(s, q').None?)
    decreases |s| + 1 - p
  {
    if p <= |s| && NameAt(s, p).None? {
      NameFromLeftmost(s, p + 1);
    }
  }

  /** Conversely, `name="` followed by a non-empty quote-free text and a
      quote is matched at that position, with that text as the name. */
  lemma NameAtComplete(s: string, p: nat, q: nat)
    requires NameKeyAt(s, p) && p + 6 < q < |s| && s[q] == '"'
    requires forall i :: p + 6 <= i < q ==> s[i] != '"'
    ensures NameAt(s, p) == Some(s[p + 6..q])
  {
  }

  /** The search from `from` finds the match at `p` when none starts between. */
  lemma {:induction false} NameFromAt(s: string, from: nat, p: nat)
    requires from <= p <= |s| && NameAt(s, p).Some?
    requires forall q :: from <= q < p ==> NameAt(s, q).None?
    ensures NameFrom(s, from) == NameAt(s, p)
    decreases p - from
  {
    if from < p {
      NameFromAt(s, from + 1, p);
    }
  }

  /** `re.search` anywhere in the line: the name of the leftmost `name="<n>"`
      with a non-empty quote-free `n`, wherever it starts. */
  lemma NameInLeftmost(s: string, p: nat, q: nat)
    requires NameKeyAt(s, p) && p + 6 < q < |s| && s[q] == '"'
    requires forall i :: p + 6 <= i < q ==> s[i] != '"'
    requires forall q' :: 0 <= q' < p ==> NameAt(s, q').None?
    ensures NameIn(s) == Some(s[p + 6..q])
  {
    NameAtComplete(s, p, q);
    NameFromAt(s, 0, p);
  }

  /** A line that starts with `name="<n>"` names `n`. */
  lemma NameInFront(n: string, rest: string)
    requires |n| > 0 && '"' !in n
    ensures NameIn("name=\"" + n + "\"" + rest) == Some(n)
  {
    var s := "name=\"" + n + "\"" + rest;
    assert s == "name=\"" + (n + ("\"" + rest));
    assert forall i :: 0 <= i < |n| ==> s[6 + i] == n[i];
    assert s[6 + |n|] == '"';
    assert QuoteFrom(s, 6) == Some(6 + |n|);
    assert s[6..6 + |n|] == n;
  }

  // ---------------------------------------------------------------------------
  // The look-ahead window

  /** The first tool name in `lines[j..end]`. */
  function FirstName(lines: seq<string>, j: nat, end: nat): Option<string>
    requires j <= end <= |lines|
    decreases end - j
  {
    if j == end then None
    else match NameIn(lines[j])
      case Some(name) => Some(name)
      case None => FirstName(lines, j + 1, end)
  }

  /** No line of the range names a tool when nothing is found; otherwise the
      name comes from the first line of the range that has one. */
  lemma {:induction false} FirstNameFirst(lines: seq<string>, j: nat, end: nat)
    requires j <= end <= |lines|
    ensures FirstName(lines, j, end).None? ==> forall k :: j <= k < end ==> NameIn(lines[k]).None?
    ensures FirstName(lines, j, end).Some? ==>
      exists k :: (j <= k < end && NameIn(lines[k]) == FirstName(lines, j, end) &&
        forall k' :: j <= k' < k ==> NameIn(lines[k']).None?)
    decreases end - j
  {
    if j < end && NameIn(lines[j]).None? {
      FirstNameFirst(lines, j + 1, end);
    }
  }

  /** `for j in range(i, min(i + window, len(lines)))`: the first name in the
      line at `i` and the `window - 1` lines after it. */
  function FindName(lines: seq<string>, i: nat, window: nat): Option<string>
    requires i <= |lines|
  {
    FirstName(lines, i, Min(i + window, |lines|))
  }

  /** The look-ahead loop: the lines of the window in order, stopping at the
      first line with a name. */
  method SearchName(lines: seq<string>, i: nat, window: nat) returns (toolName: Option<string>)
    requires i <= |lines|
    ensures toolName == FindName(lines, i, window)
  {
    toolName := None;
    var end := Min(i + window, |lines|);
    var j := i;
    while j < end && toolName.None?
      invariant i <= j <= end
      invariant toolName.None? ==> FirstName(lines, i, end) == FirstName(lines, j, end)
      invariant toolName.Some? ==> toolName == FirstName(lines, i, end)
    {
      toolName := NameIn(lines[j]);
      j := j + 1;
    }
  }

  /** A name found in a window is also the one found in any longer window. */
  lemma {:induction false} WindowGrows(lines: seq<string>, j: nat, a: nat, b: nat)
    requires j <= a <= b <= |lines| && FirstName(lines, j, a).Some?
    ensures FirstName(lines, j, b) == FirstName(lines, j, a)
    decreases a - j
  {
    if NameIn(lines[j]).None? {
      WindowGrows(lines, j + 1, a, b);
    }
  }

  // ---------------------------------------------------------------------------
  // The layout of a pass

  /** What a pass does with one input line: copy it, or replace it by a guard
      line and a re-indented line. */
  datatype Decision = Keep | Wrap(guard: string, wrapped: string)

  function Emit(line: string, d: Decision): seq<string> {
    match d
    case Keep => [line]
    case Wrap(guard, wrapped) => [guard, wrapped]
  }

  /** The output for the first `k` input lines. */
  function Apply(lines: seq<string>, ds: seq<Decision>, k: nat): seq<string>
    requires |ds| == |lines| && k <= |lines|
  {
    if k == 0 then [] else Apply(lines, ds, k - 1) + Emit(lines[k - 1], ds[k - 1])
  }

  /** One more input line appends what its decision emits. */
  lemma ApplyStep(lines: seq<string>, ds: seq<Decision>, k: nat, d: Decision)
    requires |ds| == |lines| && k < |lines| && ds[k] == d
    ensures Apply(lines, ds, k + 1) == Apply(lines, ds, k) + Emit(lines[k], d)
  {
  }

  /** The number of guard lines inserted for the first `k` input lines. */
  function WrapsBefore(ds: seq<Decision>, k: nat): (n: nat)
    requires k <= |ds|
    ensures n <= k
  {
    if k == 0 then 0 else WrapsBefore(ds, k - 1) + (if ds[k - 1].Wrap? then 1 else 0)
  }

  /** Input line `i` sits at output position `i + WrapsBefore(ds, i)`: copied,
      or as its guard followed by its re-indented form. */
  predicate Placed(out: seq<string>, lines: seq<string>, ds: seq<Decision>, i: nat)
    requires |ds| == |lines| && i < |lines|
  {
    var o := i + WrapsBefore(ds, i);
    match ds[i]
    case Keep => o < |out| && out[o] == lines[i]
    case Wrap(guard, wrapped) => o + 1 < |out| && out[o] == guard && out[o + 1] == wrapped
  }

  /** The output has one line per input line plus one per guard, and every
      input line is placed in order. */
  lemma {:induction false} ApplyLayout(lines: seq<string>, ds: seq<Decision>, k: nat)
    requires |ds| == |lines| && k <= |lines|
    ensures |Apply(lines, ds, k)| == k + WrapsBefore(ds, k)
    ensures forall i :: 0 <= i < k ==> Placed(Apply(lines, ds, k), lines, ds, i)
  {
    if k > 0 {
      ApplyLayout(lines, ds, k - 1);
      var prev := Apply(lines, ds, k - 1);
      var out := Apply(lines, ds, k);
      assert out == prev + Emit(lines[k - 1], ds[k - 1]);
      forall i | 0 <= i < k ensures Placed(out, lines, ds, i) {
        if i < k - 1 {
          assert Placed(prev, lines, ds, i);
          var o := i + WrapsBefore(ds, i);
          assert out[o] == prev[o];
          if ds[i].Wrap? {
            assert o + 1 < |prev|;
            assert out[o + 1] == prev[o + 1];
          }
        }
      }
    }
  }

  /** Where one input line lands in the whole output. */
  lemma PlacedAt(lines: seq<string>, ds: seq<Decision>, i: nat)
    requires |ds| == |lines| && i < |lines|
    ensures Placed(Apply(lines, ds, |lines|), lines, ds, i)
  {
    ApplyLayout(lines, ds, |lines|);
  }

  /** A pass that keeps every line returns its input. */
  lemma {:induction false} ApplyAllKept(lines: seq<string>, ds: seq<Decision>, k: nat)
    requires |ds| == |lines| && k <= |lines|
    requires forall i :: 0 <= i < k ==> ds[i] == Keep
    ensures Apply(lines, ds, k) == lines[..k]
  {
    if k > 0 {
      ApplyAllKept(lines, ds, k - 1);
      assert lines[..k] == lines[..k - 1] + [lines[k - 1]];
    }
  }
}
