/** `format_prompts_table` of coaiapy/cofuse.py: the fixed-width text table
    printed for a list of prompts.

    The argument is either a JSON text (parsed by `json.loads`, whose result is
    a parameter here) or an already parsed value. Any exception raised while
    formatting is caught and turned into an error text that ends with the raw
    argument; the exception's message (`str(e)`) is passed in as `message`. */
module PromptTable {
  import opened Wrappers
  import opened Strs
  import opened PyJson

  /** A value passed already parsed. A string argument is never one: the code
      always runs `json.loads` on a `str`, so that case is `Text`. */
  type ParsedArg = v: Json | !v.JStr? witness JNull

  datatype TableInput =
    | Text(text: string, parsed: Option<Json>)  // `parsed` is None when json.loads raises
    | Value(v: ParsedArg)

  /** The fields of one prompt object that reach the table. Absent keys are
      None; `labels` is already `', '.join(...)` of the stored labels. */
  datatype Entry = Entry(name: Option<string>, version: Option<Json>, created: Option<string>, labels: string)

  datatype Widths = Widths(name: nat, version: nat, created: nat, tags: nat)

  const NoPrompts := "No prompts found."
  const ErrorPrefix := "Error formatting prompts table: "
  const RawMarker := "\n\nRaw JSON:\n"

  // ---------------------------------------------------------------------------
  // Reading the prompt objects

  /** `', '.join(v)`: a list of strings, the characters of a string or the keys
      of a dict are joined; anything else raises TypeError (None). */
  function JoinLabels(v: Json): (r: Option<string>)
    ensures r.Some? <==> Joinable(v)
    ensures v.JArr? && |v.items| == 0 ==> r == Some("")
    ensures v.JArr? && (exists i :: 0 <= i < |v.items| && !v.items[i].JStr?) ==> r.None?
  {
    match v
    case JArr(items) =>
      if forall i :: 0 <= i < |items| ==> items[i].JStr? then Some(Join(StrValues(items), ", ")) else None
    case JStr(s) => Some(Join(Chars(s), ", "))
    case JObj(fields) => Some(Join(Keys(fields), ", "))
    case _ => None
  }

  /** What `', '.join` accepts among JSON values: a list of strings, a string
      (its characters) or a dict (its keys, which JSON makes strings). */
  predicate Joinable(v: Json) {
    || (v.JArr? && forall i :: 0 <= i < |v.items| ==> v.items[i].JStr?)
    || v.JStr?
    || v.JObj?
  }

  /** A key that is either absent or holds a string. */
  predicate StringOrAbsent(o: Option<Json>) {
    o.None? || o.value.JStr?
  }

  function StrValues(items: seq<Json>): (r: seq<string>)
    requires forall i :: 0 <= i < |items| ==> items[i].JStr?
    ensures |r| == |items| && forall i :: 0 <= i < |items| ==> r[i] == items[i].s
  {
    if |items| == 0 then [] else [items[0].s] + StrValues(items[1..])
  }

  function Chars(s: string): (r: seq<string>)
    ensures |r| == |s| && forall i :: 0 <= i < |s| ==> r[i] == [s[i]]
  {
    if |s| == 0 then [] else [[s[0]]] + Chars(s[1..])
  }

  /** A string-valued field: Some(None) when absent, None when present with a
      value the table code cannot take `len` of and slice and pad. */
  function StringField(fields: seq<(string, Json)>, key: string): Option<Option<string>> {
    match Lookup(fields, key)
    case None => Some(None)
    case Some(JStr(s)) => Some(Some(s))
    case Some(_) => None
  }

  /** One element of the list, or None when formatting it raises: `p.get` on
      a non-dict, `len`/slicing/padding of a non-string name or createdAt, or
      labels that `', '.join` rejects. */
  function EntryOf(p: Json): (r: Option<Entry>)
    ensures r.Some? <==>
      && p.JObj?
      && StringOrAbsent(Lookup(p.fields, "name"))
      && StringOrAbsent(Lookup(p.fields, "createdAt"))
      && (Lookup(p.fields, "labels").None? || Joinable(Lookup(p.fields, "labels").value))
    ensures r.Some? ==> p.JObj?
    ensures r.Some? ==> Lookup(p.fields, "version") == r.value.version
    ensures r.Some? && r.value.name.Some? ==> Lookup(p.fields, "name") == Some(JStr(r.value.name.value))
    ensures r.Some? && r.value.name.None? ==> Lookup(p.fields, "name").None?
    ensures r.Some? && r.value.created.Some? ==> Lookup(p.fields, "createdAt") == Some(JStr(r.value.created.value))
    ensures r.Some? && r.value.created.None? ==> Lookup(p.fields, "createdAt").None?
    ensures r.Some? ==> Some(r.value.labels) == JoinLabels(Get(p.fields, "labels", JArr([])))
  {
    if !p.JObj? then None
    else
      match (StringField(p.fields, "name"), StringField(p.fields, "createdAt"),
             JoinLabels(Get(p.fields, "labels", JArr([]))))
      case (Some(name), Some(created), Some(labels)) =>
        Some(Entry(name, Lookup(p.fields, "version"), created, labels))
      case _ => None
  }

  /** The entries of all prompts, or None when one of them cannot be formatted
      or `prompts` is not a list (iterating a dict or string yields strings,
      which have no `get`; a number is not iterable). */
  function Entries(prompts: Json): (r: Option<seq<Entry>>)
    ensures r.Some? <==> prompts.JArr? && forall i :: 0 <= i < |prompts.items| ==> EntryOf(prompts.items[i]).Some?
    ensures r.Some? ==> |r.value| == |prompts.items|
    ensures r.Some? ==> forall i :: 0 <= i < |r.value| ==> Some(r.value[i]) == EntryOf(prompts.items[i])
  {
    if !prompts.JArr? then None else EntriesOf(prompts.items)
  }

  function EntriesOf(ps: seq<Json>): (r: Option<seq<Entry>>)
    ensures r.Some? <==> forall i :: 0 <= i < |ps| ==> EntryOf(ps[i]).Some?
    ensures r.Some? ==> |r.value| == |ps| && forall i :: 0 <= i < |ps| ==> Some(r.value[i]) == EntryOf(ps[i])
  {
    if |ps| == 0 then Some([])
    else match (EntryOf(ps[0]), EntriesOf(ps[1..]))
      case (Some(e), Some(rest)) => Some([e] + rest)
      case _ => None
  }

  // ---------------------------------------------------------------------------
  // Cells and widths

  /** Python's `s[:w]`. */
  function Take(s: string, w: nat): (r: string)
    ensures |r| == Min(|s|, w) && r == s[..|r|]
  {
    if |s| <= w then s else s[..w]
  }

  /** Python's `f"{s:<{w}}"`: left-aligned, padded with spaces, never cut. */
  function Pad(s: string, w: nat): (r: string)
    ensures |r| == Max(|s|, w) && r[..|s|] == s
    ensures forall i :: |s| <= i < |r| ==> r[i] == ' '
  {
    if |s| < w then s + Spaces(w - |s|) else s
  }

  function NameLen(e: Entry): nat { |e.name.GetOr("")| }
  function VersionLen(e: Entry): nat { |Str(e.version.GetOr(JStr("")))| }
  function CreatedLen(e: Entry): nat { |Take(e.created.GetOr(""), 10)| }
  function TagsLen(e: Entry): nat { |e.labels| }

  function NameCell(e: Entry, w: nat): string { Take(e.name.GetOr("N/A"), w) }
  function VersionCell(e: Entry, w: nat): string { Take(Str(e.version.GetOr(JStr("N/A"))), w) }
  function CreatedCell(e: Entry): string { Take(e.created.GetOr("N/A"), 10) }
  function TagsCell(e: Entry, w: nat): string {
    var t := Take(e.labels, w);
    if |t| == 0 then "None" else t
  }

  /** The largest element. */
  function Largest(s: seq<nat>): (m: nat)
    requires |s| > 0
    ensures forall i :: 0 <= i < |s| ==> s[i] <= m
    ensures exists i :: 0 <= i < |s| && s[i] == m
  {
    if |s| == 1 then s[0]
    else
      var rest := Largest(s[1..]);
      assert forall i :: 1 <= i < |s| ==> s[i] == s[1..][i - 1];
      if s[0] >= rest then s[0] else rest
  }

  /** `max(max([lens] + [len(header)]), minimum)`. */
  function ColumnWidth(lens: seq<nat>, header: string, minimum: nat): nat {
    Max(Largest(lens + [|header|]), minimum)
  }

  function NameLens(es: seq<Entry>): (r: seq<nat>)
    ensures |r| == |es| && forall i :: 0 <= i < |es| ==> r[i] == NameLen(es[i])
  {
    if |es| == 0 then [] else [NameLen(es[0])] + NameLens(es[1..])
  }

  function VersionLens(es: seq<Entry>): (r: seq<nat>)
    ensures |r| == |es| && forall i :: 0 <= i < |es| ==> r[i] == VersionLen(es[i])
  {
    if |es| == 0 then [] else [VersionLen(es[0])] + VersionLens(es[1..])
  }

  function CreatedLens(es: seq<Entry>): (r: seq<nat>)
    ensures |r| == |es| && forall i :: 0 <= i < |es| ==> r[i] == CreatedLen(es[i])
  {
    if |es| == 0 then [] else [CreatedLen(es[0])] + CreatedLens(es[1..])
  }

  function TagsLens(es: seq<Entry>): (r: seq<nat>)
    ensures |r| == |es| && forall i :: 0 <= i < |es| ==> r[i] == TagsLen(es[i])
  {
    if |es| == 0 then [] else [TagsLen(es[0])] + TagsLens(es[1..])
  }

  function ColumnWidths(es: seq<Entry>): Widths {
    Widths(ColumnWidth(NameLens(es), "Name", 15),
           ColumnWidth(VersionLens(es), "Version", 8),
           ColumnWidth(CreatedLens(es), "Created", 10),
           ColumnWidth(TagsLens(es), "Tags/Labels", 12))
  }

  function Columns(ws: Widths): seq<nat> {
    [ws.name, ws.version, ws.created, ws.tags]
  }

  // ---------------------------------------------------------------------------
  // Lines

  function Dashes(n: nat): (r: string)
    ensures |r| == n && forall i :: 0 <= i < n ==> r[i] == '-'
  {
    if n == 0 then "" else Dashes(n - 1) + "-"
  }

  /** `+----+----+...+`: each column's width plus two dashes. */
  function Separator(widths: seq<nat>): string {
    if |widths| == 0 then "+" else "+" + Dashes(widths[0] + 2) + Separator(widths[1..])
  }

  /** `| a | b | ... |`: each cell padded to its column's width. */
  function Line(cells: seq<string>, widths: seq<nat>): string
    requires |cells| == |widths|
  {
    if |cells| == 0 then "|"
    else "| " + Pad(cells[0], widths[0]) + " " + Line(cells[1..], widths[1..])
  }

  const Headers: seq<string> := ["Name", "Version", "Created", "Tags/Labels"]

  function Cells(e: Entry, ws: Widths): seq<string> {
    [NameCell(e, ws.name), VersionCell(e, ws.version), CreatedCell(e), TagsCell(e, ws.tags)]
  }

  function Row(e: Entry, ws: Widths): string {
    Line(Cells(e, ws), Columns(ws))
  }

  function Rows(es: seq<Entry>, ws: Widths): (r: seq<string>)
    ensures |r| == |es| && forall i :: 0 <= i < |es| ==> r[i] == Row(es[i], ws)
  {
    if |es| == 0 then [] else [Row(es[0], ws)] + Rows(es[1..], ws)
  }

  function TotalLine(n: nat): string {
    "Total prompts: " + IntStr(n)
  }

  function TableLines(es: seq<Entry>): seq<string> {
    var ws := ColumnWidths(es);
    var sep := Separator(Columns(ws));
    [sep, Line(Headers, Columns(ws)), sep] + Rows(es, ws) + [sep, TotalLine(|es|)]
  }

  /** The text after the prefix and message: the argument as written. */
  function Raw(input: TableInput): string {
    match input
    case Text(text, _) => text
    case Value(v) => Str(v)
  }

  function ErrorText(input: TableInput, message: string): string {
    ErrorPrefix + message + RawMarker + Raw(input)
  }

  function Parsed(input: TableInput): Option<Json> {
    match input
    case Text(_, parsed) => parsed
    case Value(v) => Some(v)
  }

  /** `format_prompts_table(prompts_json)`. */
  function FormatPromptsTable(input: TableInput, message: string): (out: string)
  {
    match Parsed(input)
    case None => ErrorText(input, message)
    case Some(prompts) =>
      if !Truthy(prompts) then NoPrompts
      else match Entries(prompts)
        case None => ErrorText(input, message)
        case Some(es) => Join(TableLines(es), "\n")
  }

  // ---------------------------------------------------------------------------
  // Widths

  /** Every column is at least its fixed minimum and its header, and fits
      every field of that column. */
  lemma WidthsFitEveryField(es: seq<Entry>)
    ensures var ws := ColumnWidths(es);
      ws.name >= 15 && ws.version >= 8 && ws.created >= 10 && ws.tags >= 12
    ensures var ws := ColumnWidths(es);
      forall i :: 0 <= i < |es| ==>
        NameLen(es[i]) <= ws.name && VersionLen(es[i]) <= ws.version &&
        CreatedLen(es[i]) <= ws.created && TagsLen(es[i]) <= ws.tags
  {
    ColumnWidthBounds(NameLens(es), "Name", 15);
    ColumnWidthBounds(VersionLens(es), "Version", 8);
    ColumnWidthBounds(CreatedLens(es), "Created", 10);
    ColumnWidthBounds(TagsLens(es), "Tags/Labels", 12);
  }

  /** No column is wider than needed: each width is its minimum or the
      length of some field of that column. */
  lemma WidthsAreTight(es: seq<Entry>)
    ensures var ws := ColumnWidths(es);
      (ws.name == 15 || exists i :: 0 <= i < |es| && ws.name == NameLen(es[i])) &&
      (ws.version == 8 || exists i :: 0 <= i < |es| && ws.version == VersionLen(es[i])) &&
      (ws.created == 10 || exists i :: 0 <= i < |es| && ws.created == CreatedLen(es[i])) &&
      (ws.tags == 12 || exists i :: 0 <= i < |es| && ws.tags == TagsLen(es[i]))
  {
    NameWidthIsTight(es);
    VersionWidthIsTight(es);
    CreatedWidthIsTight(es);
    TagsWidthIsTight(es);
  }

  lemma NameWidthIsTight(es: seq<Entry>)
    ensures ColumnWidths(es).name == 15 || exists i :: 0 <= i < |es| && ColumnWidths(es).name == NameLen(es[i])
  {
    ColumnWidthBounds(NameLens(es), "Name", 15);
  }

  lemma VersionWidthIsTight(es: seq<Entry>)
    ensures ColumnWidths(es).version == 8 || exists i :: 0 <= i < |es| && ColumnWidths(es).version == VersionLen(es[i])
  {
    ColumnWidthBounds(VersionLens(es), "Version", 8);
  }

  lemma CreatedWidthIsTight(es: seq<Entry>)
    ensures ColumnWidths(es).created == 10 || exists i :: 0 <= i < |es| && ColumnWidths(es).created == CreatedLen(es[i])
  {
    ColumnWidthBounds(CreatedLens(es), "Created", 10);
  }

  lemma TagsWidthIsTight(es: seq<Entry>)
    ensures ColumnWidths(es).tags == 12 || exists i :: 0 <= i < |es| && ColumnWidths(es).tags == TagsLen(es[i])
  {
    ColumnWidthBounds(TagsLens(es), "Tags/Labels", 12);
  }

  lemma ColumnWidthBounds(lens: seq<nat>, header: string, minimum: nat)
    requires |header| <= minimum
    ensures var w := ColumnWidth(lens, header, minimum);
      w >= minimum && (forall i :: 0 <= i < |lens| ==> lens[i] <= w) &&
      (w == minimum || exists i :: 0 <= i < |lens| && lens[i] == w)
  {
    var all := lens + [|header|];
    var m := Largest(all);
    assert forall i :: 0 <= i < |lens| ==> all[i] == lens[i];
    var k :| 0 <= k < |all| && all[k] == m;
    if k == |lens| {
      assert m == |header| <= minimum;
    }
  }

  /** No cell is ever cut: each column is as wide as its longest field, and
      the placeholders "N/A" and "None" fit the minimum widths. */
  lemma CellsAreNotTruncated(es: seq<Entry>, i: nat)
    requires i < |es|
    ensures var ws := ColumnWidths(es);
      NameCell(es[i], ws.name) == es[i].name.GetOr("N/A") &&
      VersionCell(es[i], ws.version) == Str(es[i].version.GetOr(JStr("N/A"))) &&
      TagsCell(es[i], ws.tags) == (if es[i].labels == "" then "None" else es[i].labels)
    ensures var ws := ColumnWidths(es);
      Fits(Cells(es[i], ws), Columns(ws))
  {
    var ws := ColumnWidths(es);
    WidthsFitEveryField(es);
    assert NameLen(es[i]) <= ws.name && VersionLen(es[i]) <= ws.version && TagsLen(es[i]) <= ws.tags;
    NameCellFits(es[i], ws.name);
    VersionCellFits(es[i], ws.version);
    TagsCellFits(es[i], ws.tags);
    FitsColumns(es[i], ws);
  }

  lemma FitsColumns(e: Entry, ws: Widths)
    requires |NameCell(e, ws.name)| <= ws.name && |VersionCell(e, ws.version)| <= ws.version
    requires ws.created >= 10 && |TagsCell(e, ws.tags)| <= ws.tags
    ensures Fits(Cells(e, ws), Columns(ws))
  {
    var cells, cols := Cells(e, ws), Columns(ws);
    assert |cells[2]| <= 10;
    assert forall c :: 0 <= c < 4 ==> |cells[c]| <= cols[c];
  }

  lemma NameCellFits(e: Entry, w: nat)
    requires NameLen(e) <= w && w >= 15
    ensures NameCell(e, w) == e.name.GetOr("N/A") && |NameCell(e, w)| <= w
  {
    assert |"N/A"| == 3;
  }

  lemma VersionCellFits(e: Entry, w: nat)
    requires VersionLen(e) <= w && w >= 8
    ensures VersionCell(e, w) == Str(e.version.GetOr(JStr("N/A"))) && |VersionCell(e, w)| <= w
  {
    assert Str(JStr("N/A")) == "N/A";
  }

  lemma TagsCellFits(e: Entry, w: nat)
    requires TagsLen(e) <= w && w >= 12
    ensures TagsCell(e, w) == (if e.labels == "" then "None" else e.labels) && |TagsCell(e, w)| <= w
  {
    assert |"None"| == 4;
  }

  // ---------------------------------------------------------------------------
  // Lines and columns

  /** Each cell fits its column. */
  predicate Fits(cells: seq<string>, widths: seq<nat>) {
    |cells| == |widths| && forall c :: 0 <= c < |cells| ==> |cells[c]| <= widths[c]
  }

  function Sum(ns: seq<nat>): nat {
    if |ns| == 0 then 0 else ns[0] + Sum(ns[1..])
  }

  /** A line of fitting cells and the separator are equally wide: the column
      widths, three characters per column and the closing bar. */
  lemma {:induction false} LineWidth(cells: seq<string>, widths: seq<nat>)
    requires Fits(cells, widths)
    ensures |Line(cells, widths)| == Sum(widths) + 3 * |widths| + 1
    ensures |Separator(widths)| == Sum(widths) + 3 * |widths| + 1
    decreases |cells|
  {
    if |cells| > 0 {
      LineWidth(cells[1..], widths[1..]);
    }
  }

  /** Where column `c` starts within a line. */
  function ColumnStart(widths: seq<nat>, c: nat): nat
    requires c < |widths|
  {
    if c == 0 then 2 else widths[0] + 3 + ColumnStart(widths[1..], c - 1)
  }

  /** `line` holds `x` at offset `start`. */
  predicate ShowsAt(line: string, start: nat, x: string) {
    start + |x| <= |line| && line[start..start + |x|] == x
  }

  /** Reading a line back by column: column `c` starts with its full cell and
      is filled with spaces up to the column's width. */
  lemma {:induction false} LineColumn(cells: seq<string>, widths: seq<nat>, c: nat)
    requires Fits(cells, widths) && c < |cells|
    ensures var line, start := Line(cells, widths), ColumnStart(widths, c);
      ShowsAt(line, start, cells[c]) && Blank(line, start + |cells[c]|, start + widths[c])
    decreases c
  {
    if c == 0 {
      FirstColumn(cells, widths);
    } else {
      LineColumn(cells[1..], widths[1..], c - 1);
      LaterColumn(cells, widths, c);
    }
  }

  lemma FirstColumn(cells: seq<string>, widths: seq<nat>)
    requires Fits(cells, widths) && 0 < |cells|
    ensures var line := Line(cells, widths);
      ShowsAt(line, 2, cells[0]) && Blank(line, 2 + |cells[0]|, 2 + widths[0])
  {
    var line := Line(cells, widths);
    var t := " " + Line(cells[1..], widths[1..]);
    var tail := Pad(cells[0], widths[0]) + t;
    assert line == "| " + tail;
    PaddedInFront(cells[0], widths[0], t);
    Shift(line, "| ", tail, 0, cells[0], widths[0]);
  }

  /** A padded cell in front of any text shows the cell, then spaces up to
      the width. */
  lemma PaddedInFront(x: string, w: nat, t: string)
    requires |x| <= w
    ensures ShowsAt(Pad(x, w) + t, 0, x) && Blank(Pad(x, w) + t, |x|, w)
  {
    var line := Pad(x, w) + t;
    assert line[..|x|] == Pad(x, w)[..|x|];
    assert forall k :: |x| <= k < w ==> line[k] == Pad(x, w)[k];
  }

  lemma LaterColumn(cells: seq<string>, widths: seq<nat>, c: nat)
    requires Fits(cells, widths) && 0 < c < |cells|
    requires var rest, start := Line(cells[1..], widths[1..]), ColumnStart(widths[1..], c - 1);
      ShowsAt(rest, start, cells[1..][c - 1]) && Blank(rest, start + |cells[1..][c - 1]|, start + widths[1..][c - 1])
    ensures var line, start := Line(cells, widths), ColumnStart(widths, c);
      ShowsAt(line, start, cells[c]) && Blank(line, start + |cells[c]|, start + widths[c])
  {
    var pre := "| " + Pad(cells[0], widths[0]) + " ";
    assert cells[1..][c - 1] == cells[c] && widths[1..][c - 1] == widths[c];
    assert Line(cells, widths) == pre + Line(cells[1..], widths[1..]);
    Shift(Line(cells, widths), pre, Line(cells[1..], widths[1..]), ColumnStart(widths[1..], c - 1), cells[c], widths[c]);
  }

  /** The characters `from..to` of `line` are spaces. */
  predicate Blank(line: string, from: nat, to: nat) {
    to <= |line| && forall k :: from <= k < to ==> line[k] == ' '
  }

  /** What `tail` shows from `start` on, `pre + tail` shows `|pre|` places
      further. */
  lemma Shift(line: string, pre: string, tail: string, start: nat, x: string, width: nat)
    requires line == pre + tail
    requires ShowsAt(tail, start, x) && Blank(tail, start + |x|, start + width)
    ensures ShowsAt(line, |pre| + start, x) && Blank(line, |pre| + start + |x|, |pre| + start + width)
  {
    assert forall k :: 0 <= k < |tail| ==> line[|pre| + k] == tail[k];
    assert line[|pre| + start..|pre| + start + |x|] == tail[start..start + |x|];
  }

  lemma CellShown(cells: seq<string>, widths: seq<nat>, c: nat)
    requires Fits(cells, widths) && c < |cells|
    ensures ShowsAt(Line(cells, widths), ColumnStart(widths, c), cells[c])
  {
    LineColumn(cells, widths, c);
  }

  /** A line break can only come from a cell. */
  lemma {:induction false} LineHasNoNewline(cells: seq<string>, widths: seq<nat>)
    requires |cells| == |widths| && forall c :: 0 <= c < |cells| ==> '\n' !in cells[c]
    ensures '\n' !in Line(cells, widths)
    ensures '\n' !in Separator(widths)
    decreases |cells|
  {
    if |cells| > 0 {
      LineHasNoNewline(cells[1..], widths[1..]);
    }
  }

  // ---------------------------------------------------------------------------
  // The table

  /** The table has a line per prompt plus five: three header lines, the
      closing separator and the total; every line but the total is
      `widths + 13` characters wide, and the rows are the prompts in order. */
  lemma TableShape(es: seq<Entry>)
    ensures var lines := TableLines(es);
      |lines| == |es| + 5 && lines[|lines| - 1] == "Total prompts: " + IntStr(|es|)
    ensures var lines, ws := TableLines(es), ColumnWidths(es);
      forall k :: 0 <= k < |lines| - 1 ==> |lines[k]| == ws.name + ws.version + ws.created + ws.tags + 13
    ensures var lines, ws := TableLines(es), ColumnWidths(es);
      |lines| > 2 && lines[0] == lines[2] == lines[|lines| - 2] == Separator(Columns(ws)) &&
      forall i :: 0 <= i < |es| ==> 3 + i < |lines| && lines[3 + i] == Row(es[i], ws)
  {
    var ws := ColumnWidths(es);
    var cols := Columns(ws);
    Layout(Separator(cols), Line(Headers, cols), Rows(es, ws), TotalLine(|es|), TableLines(es));
    TableWidth(es);
  }

  lemma TableWidth(es: seq<Entry>)
    ensures var lines, ws := TableLines(es), ColumnWidths(es);
      forall k :: 0 <= k < |lines| - 1 ==> |lines[k]| == ws.name + ws.version + ws.created + ws.tags + 13
  {
    var ws := ColumnWidths(es);
    var cols := Columns(ws);
    var rows := Rows(es, ws);
    var width := ws.name + ws.version + ws.created + ws.tags + 13;
    RowsWidth(es);
    WidthsFitEveryField(es);
    HeadersFit(ws);
    LineWidth(Headers, cols);
    ColumnsWidth(ws);
    UniformWidth(Separator(cols), Line(Headers, cols), rows, TotalLine(|es|), TableLines(es), width);
  }

  lemma RowsWidth(es: seq<Entry>)
    ensures var ws := ColumnWidths(es);
      forall i :: 0 <= i < |es| ==> |Rows(es, ws)[i]| == ws.name + ws.version + ws.created + ws.tags + 13
  {
    var ws := ColumnWidths(es);
    var cols := Columns(ws);
    ColumnsWidth(ws);
    forall i | 0 <= i < |es|
      ensures |Rows(es, ws)[i]| == ws.name + ws.version + ws.created + ws.tags + 13
    {
      CellsAreNotTruncated(es, i);
      LineWidth(Cells(es[i], ws), cols);
    }
  }

  /** Four columns add 13 characters of borders to their widths. */
  lemma ColumnsWidth(ws: Widths)
    ensures Sum(Columns(ws)) + 3 * |Columns(ws)| + 1 == ws.name + ws.version + ws.created + ws.tags + 13
  {
    var cols := Columns(ws);
    assert cols[3..][1..] == [];
    assert cols[2..][1..] == cols[3..];
    assert cols[1..][1..] == cols[2..];
    assert Sum(cols[3..]) == ws.tags;
    assert Sum(cols[2..]) == ws.created + ws.tags;
    assert Sum(cols[1..]) == ws.version + ws.created + ws.tags;
  }

  lemma HeadersFit(ws: Widths)
    requires ws.name >= 15 && ws.version >= 8 && ws.created >= 10 && ws.tags >= 12
    ensures Fits(Headers, Columns(ws))
  {
  }

  /** Where each kind of line sits in the table. */
  lemma Layout(sep: string, header: string, rows: seq<string>, total: string, lines: seq<string>)
    requires lines == [sep, header, sep] + rows + [sep, total]
    ensures |lines| == |rows| + 5
    ensures lines[0] == sep && lines[1] == header && lines[2] == sep
    ensures lines[|lines| - 2] == sep && lines[|lines| - 1] == total
    ensures forall i :: 0 <= i < |rows| ==> lines[3 + i] == rows[i]
  {
  }

  lemma UniformWidth(sep: string, header: string, rows: seq<string>, total: string, lines: seq<string>, width: nat)
    requires lines == [sep, header, sep] + rows + [sep, total]
    requires |sep| == width && |header| == width && forall i :: 0 <= i < |rows| ==> |rows[i]| == width
    ensures forall k :: 0 <= k < |lines| - 1 ==> |lines[k]| == width
  {
    forall k | 0 <= k < |lines| - 1
      ensures |lines[k]| == width
    {
      if 3 <= k < 3 + |rows| {
        assert lines[k] == rows[k - 3];
      }
    }
  }

  /** Each prompt's name, version and labels appear in full at the start of
      their column of the prompt's row, padded with spaces to the column
      width. */
  lemma RowShowsFullFields(es: seq<Entry>, i: nat)
    requires i < |es|
    ensures var ws, e := ColumnWidths(es), es[i];
      var row, cols := Row(e, ws), Columns(ws);
      ShowsAt(row, ColumnStart(cols, 0), e.name.GetOr("N/A")) &&
      ShowsAt(row, ColumnStart(cols, 1), Str(e.version.GetOr(JStr("N/A")))) &&
      ShowsAt(row, ColumnStart(cols, 3), if e.labels == "" then "None" else e.labels)
  {
    var ws := ColumnWidths(es);
    var cells, cols := Cells(es[i], ws), Columns(ws);
    CellsAreNotTruncated(es, i);
    CellShown(cells, cols, 0);
    CellShown(cells, cols, 1);
    CellShown(cells, cols, 3);
  }

  /** The outcomes of the formatter: an unparsable text or a value that cannot
      be formatted gives the error text (never an exception), a falsy value
      the "No prompts found." message, and a list of well-formed prompts the
      table's lines joined by newlines. */
  lemma FormatOutcomes(input: TableInput, message: string)
    ensures Parsed(input).None? ==>
      FormatPromptsTable(input, message) == ErrorPrefix + message + RawMarker + Raw(input)
    ensures Parsed(input).Some? && !Truthy(Parsed(input).value) ==>
      FormatPromptsTable(input, message) == "No prompts found."
    ensures Parsed(input).Some? && Truthy(Parsed(input).value) && Entries(Parsed(input).value).None? ==>
      FormatPromptsTable(input, message) == ErrorPrefix + message + RawMarker + Raw(input)
    ensures Parsed(input).Some? && Truthy(Parsed(input).value) && Entries(Parsed(input).value).Some? ==>
      FormatPromptsTable(input, message) == Join(TableLines(Entries(Parsed(input).value).value), "\n")
  {
  }

  /** One element that is not a dict turns the whole table into the error
      text. */
  lemma NonDictPromptIsAnError(ps: seq<Json>, i: nat, message: string)
    requires i < |ps| && !ps[i].JObj?
    ensures FormatPromptsTable(Value(JArr(ps)), message) == ErrorPrefix + message + RawMarker + Str(JArr(ps))
  {
    assert EntryOf(ps[i]).None?;
  }

  /** A prompt none of whose shown fields contains a line break. */
  predicate SingleLine(e: Entry) {
    '\n' !in e.name.GetOr("N/A") && '\n' !in Str(e.version.GetOr(JStr("N/A"))) &&
    '\n' !in e.created.GetOr("N/A") && '\n' !in e.labels
  }

  /** Splitting the printed table at line breaks gives back its lines, when
      no field contains a line break. */
  lemma TableSplitsIntoItsLines(es: seq<Entry>)
    requires forall i :: 0 <= i < |es| ==> SingleLine(es[i])
    ensures Split(Join(TableLines(es), "\n"), '\n') == TableLines(es)
  {
    var lines := TableLines(es);
    TableLinesHaveNoNewline(es);
    SplitJoin(lines, '\n');
    assert ['\n'] == "\n";
  }

  lemma TableLinesHaveNoNewline(es: seq<Entry>)
    requires forall i :: 0 <= i < |es| ==> SingleLine(es[i])
    ensures |TableLines(es)| >= 1 && forall k :: 0 <= k < |TableLines(es)| ==> '\n' !in TableLines(es)[k]
  {
    var ws := ColumnWidths(es);
    var cols := Columns(ws);
    var rows := Rows(es, ws);
    HeadersHaveNoNewline();
    LineHasNoNewline(Headers, cols);
    IntStrHasNoNewline(|es|);
    RowsHaveNoNewline(es, ws);
    NoNewlineInLayout(Separator(cols), Line(Headers, cols), rows, TotalLine(|es|), TableLines(es));
  }

  lemma HeadersHaveNoNewline()
    ensures forall c :: 0 <= c < |Headers| ==> '\n' !in Headers[c]
  {
    NoNewlineChecked("Name");
    NoNewlineChecked("Version");
    NoNewlineChecked("Created");
    NoNewlineChecked("Tags/Labels");
  }

  /** Character-by-character check that `s` has no line break from `i` on. */
  predicate NewlineFreeFrom(s: string, i: nat)
    decreases |s| - i
  {
    i >= |s| || (s[i] != '\n' && NewlineFreeFrom(s, i + 1))
  }

  lemma NoNewlineChecked(s: string)
    requires NewlineFreeFrom(s, 0)
    ensures '\n' !in s
  {
    NoNewlineCheckedFrom(s, 0);
  }

  lemma {:induction false} NoNewlineCheckedFrom(s: string, i: nat)
    requires NewlineFreeFrom(s, i)
    ensures forall k :: i <= k < |s| ==> s[k] != '\n'
    decreases |s| - i
  {
    if i < |s| {
      NoNewlineCheckedFrom(s, i + 1);
    }
  }

  lemma RowsHaveNoNewline(es: seq<Entry>, ws: Widths)
    requires forall i :: 0 <= i < |es| ==> SingleLine(es[i])
    ensures forall i :: 0 <= i < |es| ==> '\n' !in Rows(es, ws)[i]
  {
    forall i | 0 <= i < |es|
      ensures '\n' !in Rows(es, ws)[i]
    {
      CellsHaveNoNewline(es[i], ws);
      LineHasNoNewline(Cells(es[i], ws), Columns(ws));
    }
  }

  lemma NoNewlineInLayout(sep: string, header: string, rows: seq<string>, total: string, lines: seq<string>)
    requires lines == [sep, header, sep] + rows + [sep, total]
    requires '\n' !in sep && '\n' !in header && '\n' !in total
    requires forall i :: 0 <= i < |rows| ==> '\n' !in rows[i]
    ensures |lines| >= 1 && forall k :: 0 <= k < |lines| ==> '\n' !in lines[k]
  {
    forall k | 0 <= k < |lines|
      ensures '\n' !in lines[k]
    {
      if 3 <= k < 3 + |rows| {
        assert lines[k] == rows[k - 3];
      }
    }
  }

  lemma CellsHaveNoNewline(e: Entry, ws: Widths)
    requires SingleLine(e)
    ensures forall c :: 0 <= c < 4 ==> '\n' !in Cells(e, ws)[c]
  {
    TakeHasNoNewline(e.name.GetOr("N/A"), ws.name);
    TakeHasNoNewline(Str(e.version.GetOr(JStr("N/A"))), ws.version);
    TakeHasNoNewline(e.created.GetOr("N/A"), 10);
    TakeHasNoNewline(e.labels, ws.tags);
  }

  lemma TakeHasNoNewline(s: string, w: nat)
    requires '\n' !in s
    ensures '\n' !in Take(s, w)
  {
    var t := Take(s, w);
    assert forall k :: 0 <= k < |t| ==> t[k] == s[k];
  }

  lemma IntStrHasNoNewline(n: nat)
    ensures '\n' !in "Total prompts: " + IntStr(n)
  {
    var d := IntStr(n);
    assert IsDigits(d);
    assert forall k :: 0 <= k < |d| ==> d[k] != '\n';
  }
}
