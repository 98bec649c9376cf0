/** add_feature_checks.py: the older pass over the lines of the server module.
    It reads the file with `readlines` (every line keeps its `\n`), puts a
    guard `if feature_config.is_tool_enabled("<name>"):` in front of every
    tool registration line that is not already guarded, and pushes that line
    four spaces to the right. It differs from `wrap_tool_definitions` in the
    window (ten lines), in the first line (never treated as guarded), in the
    guard (which carries its own line end), and in where the four spaces go
    (right after the indentation, not in front of the marker). */
module AddFeatureChecks {
  import opened Wrappers
  import opened Strs
  import opened ToolGuards
  import WrapTools

  /** The name is looked for in the marker line and the nine lines after it. */
  const Window := 10

  /** `line.replace(base_indent, base_indent + '    ', 1)` with `base_indent`
      the leading whitespace of the line. */
  function Reindent(line: string): string {
    var indent := LeadingSpace(line);
    ReplaceFirst(line, indent, indent + "    ")
  }

  /** Only a line after a guard line counts as guarded; the first line never
      does. */
  predicate Guarded(lines: seq<string>, i: nat)
    requires i < |lines|
  {
    i > 0 && Contains(lines[i - 1], GuardText)
  }

  /** What the loop does with line `i`. */
  function Decide(lines: seq<string>, i: nat): Decision
    requires i < |lines|
  {
    var line := lines[i];
    if Contains(line, Marker) && !Guarded(lines, i) then
      match FindName(lines, i, Window)
      case Some(name) => Wrap(GuardLine(LeadingSpace(line), name) + "\n", Reindent(line))
      case None => Keep
    else Keep
  }

  /** The decision for an unguarded marker line with a name in the window. */
  lemma DecideWraps(lines: seq<string>, i: nat, name: string)
    requires i < |lines| && Contains(lines[i], Marker) && !Guarded(lines, i)
    requires FindName(lines, i, Window) == Some(name)
    ensures Decide(lines, i) == Wrap(GuardLine(LeadingSpace(lines[i]), name) + "\n", Reindent(lines[i]))
  {
  }

  /** A guard the pass inserts contains the guard text. */
  lemma WrapGuarded(lines: seq<string>, i: nat)
    requires i < |lines| && Decide(lines, i).Wrap?
    ensures Contains(Decide(lines, i).guard, GuardText)
  {
    var g := GuardLine(LeadingSpace(lines[i]), FindName(lines, i, Window).value);
    ContainsExtended(g, "\n", GuardText);
  }

  /** A line after a line holding the guard text is kept. */
  lemma GuardedKept(lines: seq<string>, i: nat)
    requires 0 < i < |lines| && Contains(lines[i - 1], GuardText)
    ensures Decide(lines, i) == Keep
  {
  }

  // DecisionsUpTo, DecisionAtUpTo, Decisions and DecisionAt have the same
  // text as in WrapTools; each module keeps its own so that its proofs see its own
  // `Decide` directly instead of through a function value.

  /** The decisions for the first `k` lines. */
  function DecisionsUpTo(lines: seq<string>, k: nat): (ds: seq<Decision>)
    requires k <= |lines|
    ensures |ds| == k
  {
    if k == 0 then [] else DecisionsUpTo(lines, k - 1) + [Decide(lines, k - 1)]
  }

  lemma {:induction false} DecisionAtUpTo(lines: seq<string>, k: nat, i: nat)
    requires i < k <= |lines|
    ensures DecisionsUpTo(lines, k)[i] == Decide(lines, i)
  {
    if i < k - 1 {
      DecisionAtUpTo(lines, k - 1, i);
    }
  }

  /** The decision for every line. */
  function Decisions(lines: seq<string>): (ds: seq<Decision>)
    ensures |ds| == |lines|
  {
    DecisionsUpTo(lines, |lines|)
  }

  lemma DecisionAt(lines: seq<string>, i: nat)
    requires i < |lines|
    ensures Decisions(lines)[i] == Decide(lines, i)
  {
    DecisionAtUpTo(lines, |lines|, i);
  }

  /** The loop at lines 12-53, lifted to a function of the lines. */
  function AddChecks(lines: seq<string>): seq<string> {
    Apply(lines, Decisions(lines), |lines|)
  }

  /** The whole script on the file's text: read the lines, rewrite, write
      them back. */
  function AddChecksText(content: string): string {
    Concat(AddChecks(ReadLines(content)))
  }

  /** Where input line `i` lands in the output. */
  function Position(lines: seq<string>, i: nat): nat
    requires i <= |lines|
  {
    i + WrapsBefore(Decisions(lines), i)
  }

  /** One turn of the loop: the lines it appends for line `i`. */
  method Step(lines: seq<string>, i: nat) returns (emitted: seq<string>)
    requires i < |lines|
    ensures emitted == Emit(lines[i], Decide(lines, i))
  {
    var line := lines[i];
    if Contains(line, Marker) {
      if i > 0 && Contains(lines[i - 1], GuardText) {
        emitted := [line];
      } else {
        var toolName := SearchName(lines, i, Window);
        match toolName
        case Some(name) =>
          var baseIndent := LeadingSpace(line);
          emitted := [GuardLine(baseIndent, name) + "\n"];
          emitted := emitted + [ReplaceFirst(line, baseIndent, baseIndent + "    ")];
        case None =>
          emitted := [line];
      }
    } else {
      emitted := [line];
    }
  }

  /** The loop of the script computes the rewrite. */
  method AddLoop(lines: seq<string>) returns (output: seq<string>)
    ensures output == AddChecks(lines)
  {
    var ds := Decisions(lines);
    output := [];
    var i := 0;
    while i < |lines|
      invariant i <= |lines|
      invariant output == Apply(lines, ds, i)
    {
      var emitted := Step(lines, i);
      DecisionAt(lines, i);
      ApplyStep(lines, ds, i, Decide(lines, i));
      output := output + emitted;
      i := i + 1;
    }
  }

  // ---------------------------------------------------------------------------
  // Properties

  /** The output has one line per input line plus one per guard, every input
      line keeps its relative order, and nothing else is added. */
  lemma AddLayout(lines: seq<string>)
    ensures |AddChecks(lines)| == |lines| + WrapsBefore(Decisions(lines), |lines|)
    ensures forall i :: 0 <= i < |lines| ==> Placed(AddChecks(lines), lines, Decisions(lines), i)
  {
    ApplyLayout(lines, Decisions(lines), |lines|);
  }

  /** A line without the marker is copied unchanged to its position. */
  lemma UnmarkedLineKept(lines: seq<string>, i: nat)
    requires i < |lines| && !Contains(lines[i], Marker)
    ensures Position(lines, i) < |AddChecks(lines)|
    ensures AddChecks(lines)[Position(lines, i)] == lines[i]
  {
    var ds := Decisions(lines);
    DecisionAt(lines, i);
    PlacedAt(lines, ds, i);
  }

  /** A marker line after a guard line, or with no name within the window,
      is copied unchanged. */
  lemma MarkerLineKept(lines: seq<string>, i: nat)
    requires i < |lines|
    requires Guarded(lines, i) || FindName(lines, i, Window).None?
    ensures Position(lines, i) < |AddChecks(lines)|
    ensures AddChecks(lines)[Position(lines, i)] == lines[i]
  {
    var ds := Decisions(lines);
    DecisionAt(lines, i);
    PlacedAt(lines, ds, i);
  }

  /** An unguarded marker line with a name in the window becomes a guard line
      with the line's own indentation, that name and a line end, directly
      followed by the re-indented line. */
  lemma MarkerLineWrapped(lines: seq<string>, i: nat, name: string)
    requires i < |lines| && Contains(lines[i], Marker) && !Guarded(lines, i)
    requires FindName(lines, i, Window) == Some(name)
    ensures Position(lines, i) + 1 < |AddChecks(lines)|
    ensures AddChecks(lines)[Position(lines, i)] == GuardLine(LeadingSpace(lines[i]), name) + "\n"
    ensures AddChecks(lines)[Position(lines, i) + 1] == Reindent(lines[i])
  {
    var ds := Decisions(lines);
    DecideWraps(lines, i, name);
    DecisionAt(lines, i);
    assert ds[i] == Wrap(GuardLine(LeadingSpace(lines[i]), name) + "\n", Reindent(lines[i]));
    PlacedAt(lines, ds, i);
  }

  /** The first line is wrapped even when it holds the guard text itself. */
  lemma FirstLineNeverGuarded(lines: seq<string>, name: string)
    requires |lines| > 0 && Contains(lines[0], Marker)
    requires FindName(lines, 0, Window) == Some(name)
    ensures Decisions(lines)[0].Wrap?
  {
    DecideWraps(lines, 0, name);
    DecisionAt(lines, 0);
  }

  /** The four spaces go right after the indentation. */
  lemma ReindentAfterIndent(line: string)
    ensures Reindent(line) == LeadingSpace(line) + "    " + line[|LeadingSpace(line)|..]
  {
    ReplacePrefixInsertsAfterIt(line, LeadingSpace(line), "    ");
  }

  /** With an indentation of blanks only, the re-indented line is four
      spaces in front of the original. */
  lemma ReindentBlankIndent(line: string)
    requires forall k :: 0 <= k < |LeadingSpace(line)| ==> line[k] == ' '
    ensures Reindent(line) == "    " + line
  {
    ReindentAfterIndent(line);
    BlankPrefixInsert(line, LeadingSpace(line), "    ");
  }

  /** A wrapped line's guard sits right in front of it in the output. */
  lemma GuardInFront(lines: seq<string>, i: nat)
    requires i < |lines| && Decide(lines, i).Wrap?
    ensures var out := AddChecks(lines); var o := Position(lines, i);
      o + 1 < |out| && Contains(out[o], GuardText)
  {
    var ds := Decisions(lines);
    WrapGuarded(lines, i);
    DecisionAt(lines, i);
    PlacedAt(lines, ds, i);
  }

  /** No double wrapping: running the script again keeps every re-indented
      line as it is, because a guard line now precedes it. */
  lemma NoDoubleWrap(lines: seq<string>, i: nat)
    requires i < |lines| && Decide(lines, i).Wrap?
    ensures var out := AddChecks(lines); var o := Position(lines, i);
      o + 1 < |out| && Decide(out, o + 1) == Keep
  {
    GuardInFront(lines, i);
    GuardedKept(AddChecks(lines), Position(lines, i) + 1);
  }

  /** A file without a tool registration line is written back unchanged. */
  lemma NoMarkerUnchanged(content: string)
    requires forall line :: line in ReadLines(content) ==> !Contains(line, Marker)
    ensures AddChecksText(content) == content
  {
    var lines := ReadLines(content);
    var ds := Decisions(lines);
    assert forall i :: 0 <= i < |lines| ==> ds[i] == Keep by {
      forall i | 0 <= i < |lines| ensures ds[i] == Keep {
        assert lines[i] in lines;
        DecisionAt(lines, i);
      }
    }
    ApplyAllKept(lines, ds, |lines|);
    assert lines[..|lines|] == lines;
    ConcatReadLines(content);
  }

  /** Past the first line, wherever `wrap_tool_definitions` would insert a
      guard this script inserts the same guard, ended by a line end: its
      window is longer and finds the same name first. */
  lemma AgreesWithWrapTools(lines: seq<string>, i: nat)
    requires 0 < i < |lines| && WrapTools.Decide(lines, i).Wrap?
    ensures Decide(lines, i).Wrap?
    ensures Decide(lines, i).guard == WrapTools.Decide(lines, i).guard + "\n"
  {
    var name := FindName(lines, i, WrapTools.Window).value;
    WindowGrows(lines, i, Min(i + WrapTools.Window, |lines|), Min(i + Window, |lines|));
    DecideWraps(lines, i, name);
  }
}
