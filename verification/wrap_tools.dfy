/** wrap_tools.py: `wrap_tool_definitions(content)` splits the text into
    lines and puts a guard `if feature_config.is_tool_enabled("<name>"):` in
    front of every tool registration line that is not already guarded,
    pushing that line four spaces to the right. */
module WrapTools {
  import opened Wrappers
  import opened Strs
  import opened ToolGuards

  /** The name is looked for in the marker line and the four lines after it. */
  const Window := 5

  /** `max(0, i - 1)`: the line before `i`, and for the first line the line
      itself. */
  function Previous(i: nat): (p: nat)
    ensures i > 0 ==> p == i - 1
    ensures i == 0 ==> p == 0
  {
    if i == 0 then 0 else i - 1
  }

  /** `line.replace(marker, '    ' + marker, 1)`. */
  function Reindent(line: string): string {
    ReplaceFirst(line, Marker, "    " + Marker)
  }

  /** What the loop does with line `i`. */
  function Decide(lines: seq<string>, i: nat): Decision
    requires i < |lines|
  {
    var line := lines[i];
    if Contains(line, Marker) && !Contains(lines[Previous(i)], GuardText) then
      match FindName(lines, i, Window)
      case Some(name) => Wrap(GuardLine(LeadingSpace(line), name), Reindent(line))
      case None => Keep
    else Keep
  }

  /** The decision for an unguarded marker line with a name in the window. */
  lemma DecideWraps(lines: seq<string>, i: nat, name: string)
    requires i < |lines| && Contains(lines[i], Marker) && !Contains(lines[Previous(i)], GuardText)
    requires FindName(lines, i, Window) == Some(name)
    ensures Decide(lines, i) == Wrap(GuardLine(LeadingSpace(lines[i]), name), Reindent(lines[i]))
  {
  }

  /** A guard the pass inserts contains the guard text. */
  lemma WrapGuarded(lines: seq<string>, i: nat)
    requires i < |lines| && Decide(lines, i).Wrap?
    ensures Contains(Decide(lines, i).guard, GuardText)
  {
  }

  /** A line after a line holding the guard text is kept. */
  lemma GuardedKept(lines: seq<string>, i: nat)
    requires 0 < i < |lines| && Contains(lines[i - 1], GuardText)
    ensures Decide(lines, i) == Keep
  {
  }

  // DecisionsUpTo, DecisionAtUpTo, Decisions and DecisionAt have the same
  // text as in AddFeatureChecks; each module keeps its own so that its proofs see its own
  // `Decide` directly instead of through a function value.

  /** The decisions for the first `k` lines. */
  function DecisionsUpTo(lines: seq<string>, k: nat): (ds: seq<Decision>)
    requires k <= |lines|
    ensures |ds| == k
  {
    if k == 0 then [] else DecisionsUpTo(lines, k - 1) + [Decide(lines, k - 1)]
  }

  lemma {:induction false} DecisionAtUpTo(lines: seq<string>, k: nat, i: nat)
    requires i < k <= |lines|
    ensures DecisionsUpTo(lines, k)[i] == Decide(lines, i)
  {
    if i < k - 1 {
      DecisionAtUpTo(lines, k - 1, i);
    }
  }

  /** The decision for every line. */
  function Decisions(lines: seq<string>): (ds: seq<Decision>)
    ensures |ds| == |lines|
  {
    DecisionsUpTo(lines, |lines|)
  }

  lemma DecisionAt(lines: seq<string>, i: nat)
    requires i < |lines|
    ensures Decisions(lines)[i] == Decide(lines, i)
  {
    DecisionAtUpTo(lines, |lines|, i);
  }

  /** The rewrite on the list of lines. */
  function WrapLines(lines: seq<string>): seq<string> {
    Apply(lines, Decisions(lines), |lines|)
  }

  /** `wrap_tool_definitions(content)`: split at `\n`, rewrite, join with `\n`. */
  function WrapToolDefinitions(content: string): string {
    Join(WrapLines(Split(content, '\n')), "\n")
  }

  /** Where input line `i` lands in the output. */
  function Position(lines: seq<string>, i: nat): nat
    requires i <= |lines|
  {
    i + WrapsBefore(Decisions(lines), i)
  }

  /** One turn of the loop: the lines it appends for line `i`. */
  method Step(lines: seq<string>, i: nat) returns (emitted: seq<string>)
    requires i < |lines|
    ensures emitted == Emit(lines[i], Decide(lines, i))
  {
    var line := lines[i];
    if Contains(line, Marker) && !Contains(lines[Previous(i)], GuardText) {
      var toolName := SearchName(lines, i, Window);
      match toolName
      case Some(name) =>
        emitted := [GuardLine(LeadingSpace(line), name), Reindent(line)];
      case None =>
        emitted := [line];
    } else {
      emitted := [line];
    }
  }

  /** The loop of `wrap_tool_definitions` computes the rewrite. */
  method WrapLoop(lines: seq<string>) returns (out: seq<string>)
    ensures out == WrapLines(lines)
  {
    var ds := Decisions(lines);
    out := [];
    var i := 0;
    while i < |lines|
      invariant i <= |lines|
      invariant out == Apply(lines, ds, i)
    {
      var emitted := Step(lines, i);
      DecisionAt(lines, i);
      ApplyStep(lines, ds, i, Decide(lines, i));
      out := out + emitted;
      i := i + 1;
    }
  }

  // ---------------------------------------------------------------------------
  // Properties

  /** The output has one line per input line plus one per guard, every input
      line keeps its relative order, and nothing else is added. */
  lemma WrapLayout(lines: seq<string>)
    ensures |WrapLines(lines)| == |lines| + WrapsBefore(Decisions(lines), |lines|)
    ensures forall i :: 0 <= i < |lines| ==> Placed(WrapLines(lines), lines, Decisions(lines), i)
  {
    ApplyLayout(lines, Decisions(lines), |lines|);
  }

  /** A line without the marker is copied unchanged to its position. */
  lemma UnmarkedLineKept(lines: seq<string>, i: nat)
    requires i < |lines| && !Contains(lines[i], Marker)
    ensures Position(lines, i) < |WrapLines(lines)|
    ensures WrapLines(lines)[Position(lines, i)] == lines[i]
  {
    var ds := Decisions(lines);
    DecisionAt(lines, i);
    PlacedAt(lines, ds, i);
  }

  /** A marker line right after a guard line, or with no name within the
      window, is copied unchanged. On the first line the check for a guard
      looks at the line itself. */
  lemma MarkerLineKept(lines: seq<string>, i: nat)
    requires i < |lines|
    requires Contains(lines[Previous(i)], GuardText) || FindName(lines, i, Window).None?
    ensures Position(lines, i) < |WrapLines(lines)|
    ensures WrapLines(lines)[Position(lines, i)] == lines[i]
  {
    var ds := Decisions(lines);
    DecisionAt(lines, i);
    PlacedAt(lines, ds, i);
  }

  /** An unguarded marker line with a name in the window becomes a guard with
      the line's own indentation and that name, directly followed by the
      re-indented line. */
  lemma MarkerLineWrapped(lines: seq<string>, i: nat, name: string)
    requires i < |lines| && Contains(lines[i], Marker) && !Contains(lines[Previous(i)], GuardText)
    requires FindName(lines, i, Window) == Some(name)
    ensures Position(lines, i) + 1 < |WrapLines(lines)|
    ensures WrapLines(lines)[Position(lines, i)] == GuardLine(LeadingSpace(lines[i]), name)
    ensures WrapLines(lines)[Position(lines, i) + 1] == Reindent(lines[i])
  {
    var ds := Decisions(lines);
    DecideWraps(lines, i, name);
    DecisionAt(lines, i);
    assert ds[i] == Wrap(GuardLine(LeadingSpace(lines[i]), name), Reindent(lines[i]));
    PlacedAt(lines, ds, i);
  }

  /** The re-indented line is the original with four spaces inserted right
      before the first marker; removing them gives the original back. */
  lemma ReindentInserts(line: string)
    requires Contains(line, Marker)
    ensures var k := Find(line, Marker).value; var r := Reindent(line);
      && |r| == |line| + 4
      && r[..k] == line[..k]
      && r[k..k + 4] == "    "
      && r[k + 4..] == line[k..]
      && r[..k] + r[k + 4..] == line
  {
    ReplaceFirstInsertsBefore(line, Marker, "    ");
  }

  /** A wrapped line's guard sits right in front of it in the output. */
  lemma GuardInFront(lines: seq<string>, i: nat)
    requires i < |lines| && Decide(lines, i).Wrap?
    ensures var out := WrapLines(lines); var o := Position(lines, i);
      o + 1 < |out| && Contains(out[o], GuardText)
  {
    var ds := Decisions(lines);
    WrapGuarded(lines, i);
    DecisionAt(lines, i);
    PlacedAt(lines, ds, i);
  }

  /** No double wrapping: running the pass again over its output keeps every
      re-indented line as it is, because a guard line now precedes it. */
  lemma NoDoubleWrap(lines: seq<string>, i: nat)
    requires i < |lines| && Decide(lines, i).Wrap?
    ensures var out := WrapLines(lines); var o := Position(lines, i);
      o + 1 < |out| && Decide(out, o + 1) == Keep
  {
    GuardInFront(lines, i);
    var out := WrapLines(lines);
    var o := Position(lines, i);
    GuardedKept(out, o + 1);
  }

  /** Text without a tool registration line comes back unchanged. */
  lemma NoMarkerUnchanged(content: string)
    requires forall line :: line in Split(content, '\n') ==> !Contains(line, Marker)
    ensures WrapToolDefinitions(content) == content
  {
    var lines := Split(content, '\n');
    var ds := Decisions(lines);
    assert forall i :: 0 <= i < |lines| ==> ds[i] == Keep by {
      forall i | 0 <= i < |lines| ensures ds[i] == Keep {
        assert lines[i] in lines;
        DecisionAt(lines, i);
      }
    }
    ApplyAllKept(lines, ds, |lines|);
    assert lines[..|lines|] == lines;
    JoinSplit(content, '\n');
  }
}
