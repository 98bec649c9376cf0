# coaiapy core in Dafny

A model of the core of coaiapy, a Python toolkit around the Langfuse
observability API and an MCP server that exposes it. The model covers:

- **`coaiapy/cofuse.py`.**
  - The paginated prompt fetch `list_prompts`.
  - The text table `format_prompts_table`.
  - The ingestion envelope built by `add_trace`, and its wrappers `create_session` and `add_trace_node`.
  - The local session file operations `load_session_file`, `create_session_and_save` and `add_trace_node_and_save`.
- **`coaiapy-mcp/coaiapy_mcp/prompts.py`.**
  - The prompt registry `PROMPTS`, with `get_prompt`, `list_prompts` and `render_prompt`.
  - The subset of `str.format` that the templates use.
- **`bump.py`.** `increment_patch`, `get_current_version` and `bump_version`. The version-assignment regular expression is modelled by a dedicated scanner.
- **`coaiapy-mcp/wrap_tools.py` and `coaiapy-mcp/add_feature_checks.py`.** These are two line-rewriting passes. Each puts an `if feature_config.is_tool_enabled("<name>"):` guard in front of every unguarded tool registration line and indents that line by four more spaces.

Modules, one per file:

| module | file | what it holds |
|---|---|---|
| `Wrappers` | `wrappers.dfy` | `Option`, `Result`, and the Python exception classes that reach the callers |
| `PyJson` | `json.dfy` | JSON values as Python holds them. A dict is its key/value list in insertion order. Also `d.get`, truthiness, `<`, `+ 1`, `str` and `repr`. |
| `Strs` | `strs.dfy` | Substring search, `str.replace(.., 1)`, `split`/`join`, `readlines`/`writelines`, decimal numerals and `\s` |
| `Pagination` | `pagination.dfy` | `list_prompts` |
| `PromptTable` | `prompt_table.dfy` | `format_prompts_table` |
| `Ingestion` | `ingestion.dfy` | `add_trace`, `create_session` and `add_trace_node` |
| `SessionStore` | `session_store.dfy` | The session file operations |
| `Prompts` | `prompts.dfy` | The registry, `str.format` and the three templates |
| `Bump` | `bump.dfy` | `bump.py` |
| `ToolGuards` | `tool_guards.dfy` | What the two rewriting passes share: the marker, the guard, the `name="..."` search, the look-ahead window, and the output layout |
| `WrapTools` | `wrap_tools.dfy` | `wrap_tool_definitions` |
| `AddFeatureChecks` | `add_feature_checks.dfy` | The loop of `add_feature_checks.py`, written as a function over its lines |

How the model reaches the outside world:

- **Remote calls.** The HTTP server is an oracle.
  - `list_prompts` sees a function from the page value to a response: failed, unparsable, or a JSON body.
  - `add_trace` sees a function from the posted JSON body to the response text, and returns that text unchanged.
- **Timestamp.** The current time is a parameter.
- **Files.**
  - Session files are a map from path to what reading gives: missing, corrupt, or a parsed document. A set lists the paths that cannot be written.
  - `bump.py` files are an `Option<string>`, where None means the file does not exist.
- **Fetch bound.** `list_prompts` is bounded by `fuel`, the number of pages it may request. The Python loop has no bound. A server can keep it going forever, and `SelfReferringNextPageNeverEnds` shows one that does.
- **Python loops.** Each loop is a Dafny method that mirrors it: `Pagination.ListPrompts`, `WrapTools.WrapLoop`, `AddFeatureChecks.AddLoop` and `ToolGuards.SearchName`. Each method is proved to compute the pure function that the properties are stated about.

Two points where the model follows what the code does rather than what a quick reading suggests:

- **Table line count.** The table has `len(prompts) + 5` lines: separator, header, separator, one row per prompt, separator, total.
- **Re-indenting in `add_feature_checks.py`.** `line.replace(base_indent, base_indent + '    ', 1)` puts the four spaces right after the indentation. For an indentation made only of blanks this is the same as four spaces in front of the line (`AddFeatureChecks.ReindentBlankIndent`). For a tab or other whitespace it is not (`AddFeatureChecks.ReindentAfterIndent`).

## Model

| member | source | states |
|---|---|---|
| PyJson.Lookup | coaiapy/cofuse.py:86-88 | `d.get(key)` finds a value exactly when some entry has that key, and the value found is stored under that key |
| PyJson.LessIsStrictTotalOrder | coaiapy/cofuse.py:88-90 | On operands of one comparable kind (all numbers, a bool counting as 0 or 1, or all strings) `<` is a strict total order: irreflexive, asymmetric and transitive, and operands ordered neither way are equal (numbers by value) |
| PyJson.StrLessIsStrictTotalOrder | coaiapy/cofuse.py:88-90 | Python's code-point order on strings is irreflexive, asymmetric and transitive, and orders any two different strings one way or the other |
| PyJson.StrNumeralReadsBack | coaiapy/cofuse.py:138 | `str()` of a natural number is a non-empty digit string that `int()` reads back as the same number |
| Strs.JoinSplit | bump.py:39-44 | Joining the parts of a split with the separator gives back the original text |
| Strs.SplitJoin | bump.py:39-44 | Splitting a join of separator-free parts gives back exactly those parts |
| Strs.ReadLines | coaiapy-mcp/add_feature_checks.py:9-10 | `readlines` gives non-empty pieces, each ending in a line end except possibly the last |
| Strs.ReadLinesCutAtEveryLineEnd | coaiapy-mcp/add_feature_checks.py:9-10 | No piece holds a line end before its last character. Together with the two statements above and the round trip below, this fixes the split completely. |
| Strs.ConcatReadLines | coaiapy-mcp/add_feature_checks.py:9-10 | Writing back with `writelines` the lines that `readlines` read gives the original text |
| Strs.LeadingSpace | coaiapy-mcp/wrap_tools.py:35-36 | `re.match(r'(\s*)', line)` captures only whitespace, and stops at the first non-whitespace character or at the end |
| Strs.ReplaceFirstInsertsBefore | coaiapy-mcp/wrap_tools.py:42-43 | Replacing the first `pat` by `extra + pat` inserts `extra` right before the first occurrence; removing it gives back the original |
| Pagination.PageItems | coaiapy/cofuse.py:67-80 | A page contributes nothing (and stops the fetch) exactly when its payload is falsy. Otherwise a list payload contributes its elements in order and any other payload is a single item. A bare array body contributes its items exactly when it is non-empty, and never leads to another page. |
| Pagination.NextPage | coaiapy/cofuse.py:82-119 | A body that is not a dict never leads to another page |
| Pagination.NextPageIsFirstApplyingRule | coaiapy/cofuse.py:84-119 | The if/elif chain equals an ordered rule list (meta, `hasNextPage`, `nextPage`, `totalPages`). The first rule that applies decides, and the fetch stops when none applies. |
| Pagination.MetaDecidesAlone | coaiapy/cofuse.py:86-97 | Once `meta` has a truthy `totalPages`, the decision depends on `meta` alone. It stops, raises, or advances the loop's own page counter. |
| Pagination.ExhaustedMetaStopsDespiteHasNextPage | coaiapy/cofuse.py:86-97 | A `meta.page` at or past `meta.totalPages` stops the fetch even when `hasNextPage` is true |
| Pagination.MetaAdvancesLocalPage | coaiapy/cofuse.py:88-92 | With meta pagination the next request is the loop's page plus one, whatever `meta.page` says |
| Pagination.HasNextPageComesFirst | coaiapy/cofuse.py:99-101 | Without meta pagination a truthy `hasNextPage` moves to `page + 1` |
| Pagination.NextPageIsFollowed | coaiapy/cofuse.py:104-106 | Otherwise a truthy `nextPage` becomes the next page as it is |
| Pagination.TopLevelTotalPages | coaiapy/cofuse.py:109-116 | Otherwise a top-level `totalPages` continues to `page + 1` exactly while the page is below it, and stops after that |
| Pagination.FetchFromIsPrependCollect | coaiapy/cofuse.py:28-78 | Running the loop with an accumulator equals collecting the remaining pages and putting the accumulated items in front |
| Pagination.ListPrompts | coaiapy/cofuse.py:27-124 | The `while True` loop returns what `Collect` defines from page 1: the items of the pages in fetch order, or the escaping exception, or the items so far when the fuel ends |
| Pagination.CollectEndsOnFailure | coaiapy/cofuse.py:38-49 | A first page that fails or does not parse gives an empty result and no error |
| Pagination.FailureKeepsEarlierItems | coaiapy/cofuse.py:38-49 | A failed or unparsable page ends the fetch with exactly the items gathered before it |
| Pagination.CollectStep | coaiapy/cofuse.py:67-119 | One page: a stop returns its items, an exception escapes, and moving on puts its items in front of the rest |
| Pagination.EarlierItemsStayInFront | coaiapy/cofuse.py:73-78 | Unless an exception escapes, the items already gathered stay in front, in order |
| Pagination.MetaPaginationFetchesEveryPage | coaiapy/cofuse.py:33-124 | With a server that follows the meta convention, the fetch returns the items of all pages 1 to `totalPages`, in order |
| Pagination.MetaPaginationKeepsPagesBeforeFailure | coaiapy/cofuse.py:33-124 | If page `k + 1` fails, the result is exactly the items of pages 1 to `k` |
| Pagination.SelfReferringNextPageNeverEnds | coaiapy/cofuse.py:104-108 | A `nextPage` that points at the page itself makes the loop fetch that page again each time, for as long as it may run |
| PromptTable.JoinLabels | coaiapy/cofuse.py:140 | `', '.join` succeeds exactly on a list of strings, a string or a dict. An empty list joins to the empty text, and a list with a non-string element raises. |
| PromptTable.EntryOf | coaiapy/cofuse.py:137-158 | A prompt can be formatted exactly when it is a dict whose `name` and `createdAt` are absent or strings and whose `labels` are absent or accepted by `', '.join`. Its name, version and created date are the ones stored, absent ones stay absent, and its labels are the joined stored labels. |
| PromptTable.Entries | coaiapy/cofuse.py:137-161 | The prompts can be formatted exactly when the value is a list all of whose elements can be, giving one entry per prompt in order |
| PromptTable.Take | coaiapy/cofuse.py:155-158 | `s[:w]` is the prefix of length `min(len(s), w)` |
| PromptTable.Pad | coaiapy/cofuse.py:150 | `f"{s:<{w}}"` starts with `s`, is `max(len(s), w)` long and is filled with spaces |
| PromptTable.WidthsFitEveryField | coaiapy/cofuse.py:137-146 | Each column width is at least its minimum (15, 8, 10, 12), which covers its header, and at least the length of every field in that column |
| PromptTable.WidthsAreTight | coaiapy/cofuse.py:137-146 | Each column width is its minimum or the length of some field of that column |
| PromptTable.CellsAreNotTruncated | coaiapy/cofuse.py:154-160 | Slicing to the column width never cuts a name, version or label list, and every cell fits its column |
| PromptTable.LineWidth | coaiapy/cofuse.py:149-160 | A line of fitting cells is as wide as the separator: the sum of the widths plus three per column plus one |
| PromptTable.LineColumn | coaiapy/cofuse.py:150-160 | Read by column, a line shows each full cell at the column's start, followed by spaces up to the column width |
| PromptTable.TableShape | coaiapy/cofuse.py:149-164 | The table has one line per prompt plus five, and the last is `Total prompts: <n>`. Every other line is the sum of the widths plus 13 characters wide. Separators sit at lines 0, 2 and next to last, and the rows are the prompts in order. |
| PromptTable.RowShowsFullFields | coaiapy/cofuse.py:154-160 | Each prompt's row shows its name, version and labels in full at the start of their columns. Placeholders are "N/A" and "None". |
| PromptTable.FormatOutcomes | coaiapy/cofuse.py:128-169 | A string argument always goes through `json.loads`, and only a non-string is taken as already parsed. Unparsable text or an unformattable value gives the error text ending in the raw argument. A falsy value gives "No prompts found.", and a list of well-formed prompts gives the table joined by newlines. |
| PromptTable.NonDictPromptIsAnError | coaiapy/cofuse.py:154-169 | One element that is not a dict turns the whole result into the error text |
| PromptTable.TableSplitsIntoItsLines | coaiapy/cofuse.py:166 | When no field holds a line break, splitting the printed table at newlines gives back exactly its lines |
| Ingestion.EnvelopeRoundTrip | coaiapy/cofuse.py:208-229 | Reading the posted body back gives a trace event with the trace id and the time. `sessionId`, `name` and `metadata.userId` are present exactly when given non-empty, and then hold those values. |
| Ingestion.EnvelopeShape | coaiapy/cofuse.py:212-229 | The body is `{"batch": [event]}` with exactly one event. Its keys are `type`, `id`, `timestamp`, then whichever of `sessionId`, `name`, `metadata` were given, in that order. |
| Ingestion.CreateSessionUsesSessionIdTwice | coaiapy/cofuse.py:234-235 | A session is posted as a trace whose id and `sessionId` are both the session id |
| Ingestion.TraceNodeBelongsToSession | coaiapy/cofuse.py:237-238 | A node is posted as a trace with its own id, the session's `sessionId` and the node name |
| SessionStore.LoadSessionFile | coaiapy/cofuse.py:264-269 | A parsed file gives its document, whatever its kind. A missing or unreadable file gives `{session_id: None, nodes: []}`. |
| SessionStore.SaveSessionFile | coaiapy/cofuse.py:271-273 | Saving fails with IOError exactly on an unwritable path. Otherwise the path holds the data and no other file changes. |
| SessionStore.LoadAfterSave | coaiapy/cofuse.py:264-273 | Loading a saved document gives it back, equal as a Python dict (the dump sorts its keys) |
| SessionStore.SetKey | coaiapy/cofuse.py:278 | Item assignment adds a new key last, after the others unchanged, and leaves the number of entries alone for an existing key |
| SessionStore.KeysSetKey | coaiapy/cofuse.py:278 | Item assignment keeps the keys and their order when the key exists, and appends the key otherwise |
| SessionStore.LookupSetKey | coaiapy/cofuse.py:278 | After `d[key] = value`, `d[key]` is the value and every other key reads as before |
| SessionStore.WithSessionId | coaiapy/cofuse.py:277-280 | Setting the session id raises TypeError exactly when the loaded document is not a dict |
| SessionStore.SessionIdEdit | coaiapy/cofuse.py:277-280 | On a dict, `session_id` becomes the new id and `nodes` keeps its value or becomes `[]`. Every other key is unchanged and, in the dict in memory, keeps its place. |
| SessionStore.WithNode | coaiapy/cofuse.py:286-289 | Appending a node raises TypeError on a non-dict and AttributeError when `nodes` is not a list, and succeeds otherwise |
| SessionStore.NodeEdit | coaiapy/cofuse.py:286-289 | `nodes` becomes the old list (or `[]`) with `{trace_id, name}` added last. Every other key, `session_id` included, is unchanged and, in the dict in memory, keeps its place. |
| SessionStore.CreateSessionOutcome | coaiapy/cofuse.py:275-282 | `create_session_and_save` returns the post's response unchanged exactly when the document is a dict and the file is writable. The file then holds the edited dict and no other file changes. Otherwise it raises TypeError or IOError. |
| SessionStore.AddTraceNodeOutcome | coaiapy/cofuse.py:284-291 | `add_trace_node_and_save` returns the post's response unchanged exactly when the document is a dict whose `nodes`, if present, is a list and the file is writable. The file then holds the edited dict. |
| SessionStore.FreshSessionFile | coaiapy/cofuse.py:264-282 | Without a readable file, creating a session writes a dict with exactly the keys `session_id`, holding the id, and `nodes`, holding `[]` |
| SessionStore.CreateSessionTwice | coaiapy/cofuse.py:275-282 | Creating the same session again leaves the file as the first call wrote it |
| SessionStore.SameNodeTwice | coaiapy/cofuse.py:284-291 | Adding the same node twice records it twice: nodes are never de-duplicated |
| Prompts.Render | coaiapy-mcp/coaiapy_mcp/prompts.py:332-335 | Rendering never raises, succeeds exactly when every field has an argument, and otherwise names the first field without one |
| Prompts.FormatEscape | coaiapy-mcp/coaiapy_mcp/prompts.py:333 | Doubled braces in a template format to single literal braces, not fields |
| Prompts.FormatUnparse | coaiapy-mcp/coaiapy_mcp/prompts.py:333 | `str.format` applied to a template written from text pieces and keyword fields gives that template's rendering |
| Prompts.RenderShowsValues | coaiapy-mcp/coaiapy_mcp/prompts.py:333 | When rendering succeeds, every field's value appears in the text |
| Prompts.FirstMissing | coaiapy-mcp/coaiapy_mcp/prompts.py:334-335 | No field is missing exactly when every field has an argument. A field that is reported has none. |
| Prompts.RenderInterleave | coaiapy-mcp/coaiapy_mcp/prompts.py:332-335 | A template of pieces and fields gives the missing-argument outcome for the first field without an argument, and succeeds when there is none |
| Prompts.ListPrompts | coaiapy-mcp/coaiapy_mcp/prompts.py:307-314 | `list_prompts` returns the registry ids in order, one per entry |
| Prompts.GetPrompt | coaiapy-mcp/coaiapy_mcp/prompts.py:294-304 | `get_prompt` finds an entry exactly when the id is listed, and what it finds is registered under that id |
| Prompts.RenderPrompt | coaiapy-mcp/coaiapy_mcp/prompts.py:328-330 | An unknown id gives `Error: Prompt '<id>' not found` |
| Prompts.RenderRegistered | coaiapy-mcp/coaiapy_mcp/prompts.py:328-335 | A registered template returns its filled text, or the message naming the first missing argument, and never raises |
| Prompts.RegistryIds | coaiapy-mcp/coaiapy_mcp/prompts.py:12-291 | The registry lists `mia_miette_duo`, `create_observability_pipeline` and `analyze_audio_workflow`, and `get_prompt` finds each one's entry |
| Prompts.RenderTemplate | coaiapy-mcp/coaiapy_mcp/prompts.py:317-335 | Rendering a registered template gives the message for its first field without an argument, or else text showing every field's value |
| Prompts.MiaMietteDuoNeedsPlaceholders | coaiapy-mcp/coaiapy_mcp/prompts.py:13-70 | With only its three declared arguments, the duo template gives the missing-argument message for `mia_analysis_placeholder`, then for `miette_reflection_placeholder` |
| Prompts.MiaMietteDuoFilled | coaiapy-mcp/coaiapy_mcp/prompts.py:13-70 | With all five fields supplied, the duo template renders and shows every value |
| Prompts.ObservabilityPipelineNeedsArguments | coaiapy-mcp/coaiapy_mcp/prompts.py:72-164 | Without one of its arguments, the pipeline guide names the first missing one in template order |
| Prompts.ObservabilityPipelineFilled | coaiapy-mcp/coaiapy_mcp/prompts.py:72-164 | With its three arguments, the pipeline guide renders and shows every value |
| Prompts.AudioWorkflowNeedsSummaryStyle | coaiapy-mcp/coaiapy_mcp/prompts.py:166-290 | `summary_style` is declared optional, yet leaving it out gives the missing-argument message |
| Prompts.AudioWorkflowFilled | coaiapy-mcp/coaiapy_mcp/prompts.py:166-290 | With both arguments, the audio workflow renders and shows every value |
| Bump.IncrementPatchNumeric | bump.py:39-41 | Three parts with an all-digit last part: the first two are kept, and the new last part reads as the old value plus one |
| Bump.IncrementPatchOther | bump.py:42-44 | Any other version gets `.1` appended |
| Bump.MatchHereShape | bump.py:16 | A match is an optional `__`, `version`, an optional `__`, spaces and one `=`, an opening quote, a quote-free value and a closing quote |
| Bump.MatchHereComplete | bump.py:16 | Conversely, every text of that shape is matched, with its two groups, its quote-free value as group 3, and its full length |
| Bump.FirstMatchFromEarliest | bump.py:33 | The search returns the earliest match position |
| Bump.FirstMatchFromNone | bump.py:33 | When the search finds nothing, no position matches. With `MatchHereComplete`, no position holds text of the pattern's shape. |
| Bump.Rewrite | bump.py:16-18 | Without a match the text is unchanged. Otherwise the text before the first match is kept and followed by that match's replacement `<g1>version<g2> = "<new>"`. |
| Bump.GetCurrentVersion | bump.py:27-34 | A missing file or a file without a match gives `0.0.0`. Otherwise the result is group 3 of the first match the search finds. |
| Bump.CurrentVersionIsLeftmostMatch | bump.py:33-34 | The version read is group 3 of the match at the leftmost position where the pattern matches |
| Bump.CurrentVersionQuoteFree | bump.py:27-34 | The version read never contains a quote |
| Bump.BumpVersion | bump.py:6-24 | A missing file gives False and no file. Otherwise the file becomes the rewritten text, and True is reported exactly when that text differs. |
| Bump.VersionAfterRewrite | bump.py:16-34 | After a rewrite to a quote-free version, reading the version gives the new one |
| Bump.VersionAfterBump | bump.py:6-34 | After a bump to a quote-free version, `get_current_version` reads the new version |
| Bump.RewriteIdempotent | bump.py:16-18 | Rewriting rewritten text with the same quote-free version changes nothing |
| Bump.BumpTwice | bump.py:6-24 | A second bump to the same quote-free version reports False and leaves the file as the first one wrote it |
| ToolGuards.GuardLine | coaiapy-mcp/wrap_tools.py:39 | Every guard line contains the guard text, so a later pass sees the line as guarded |
| ToolGuards.NameAt | coaiapy-mcp/wrap_tools.py:28-30 | `name="([^"]+)"` captures a non-empty, quote-free name that sits between `name="` and the next quote |
| ToolGuards.NameFromLeftmost | coaiapy-mcp/wrap_tools.py:28 | `re.search` reports the leftmost match, and nothing when no position matches |
| ToolGuards.NameInFront | coaiapy-mcp/wrap_tools.py:28-30 | A line starting with `name="<n>"` names `n` |
| ToolGuards.NameAtComplete | coaiapy-mcp/wrap_tools.py:28-30 | Conversely, `name="` followed by a non-empty quote-free text and a quote is matched at that position, with that text as the name |
| ToolGuards.NameInLeftmost | coaiapy-mcp/wrap_tools.py:28-30 | The search anywhere in a line returns the name of the leftmost `name="<n>"`, wherever it starts, as in `types.Tool(name="x", ...` |
| ToolGuards.FirstNameFirst | coaiapy-mcp/wrap_tools.py:27-31 | The look-ahead finds nothing exactly when no line of the window names a tool. Otherwise it finds the name in the first line of the window that has one. |
| ToolGuards.SearchName | coaiapy-mcp/wrap_tools.py:26-31 | The look-ahead loop, with its early `break`, finds the window's first name |
| ToolGuards.WindowGrows | coaiapy-mcp/add_feature_checks.py:28-33 | A name found in a window is the one found in any longer window |
| ToolGuards.ApplyLayout | coaiapy-mcp/wrap_tools.py:16-52 | The output has one line per input line plus one per guard. Each input line is placed in order, either copied or as its guard directly followed by its re-indented form. |
| ToolGuards.ApplyAllKept | coaiapy-mcp/wrap_tools.py:47-48 | A pass that keeps every line returns its input |
| WrapTools.WrapLoop | coaiapy-mcp/wrap_tools.py:16-50 | The loop computes the rewrite of the lines |
| WrapTools.WrapLayout | coaiapy-mcp/wrap_tools.py:16-52 | The output has one line per input line plus one per guard, and every input line is placed in order |
| WrapTools.UnmarkedLineKept | coaiapy-mcp/wrap_tools.py:47-48 | A line without the marker is copied unchanged to its position |
| WrapTools.MarkerLineKept | coaiapy-mcp/wrap_tools.py:24-46 | A marker line after a guard, or with no name in its five-line window, is copied unchanged. For the first line the guard check looks at the line itself. |
| WrapTools.MarkerLineWrapped | coaiapy-mcp/wrap_tools.py:33-44 | An unguarded marker line with a name becomes the guard with the line's indentation and that name, directly followed by the re-indented line |
| WrapTools.ReindentInserts | coaiapy-mcp/wrap_tools.py:42-43 | The re-indented line is the original with four spaces inserted right before the first marker |
| WrapTools.NoDoubleWrap | coaiapy-mcp/wrap_tools.py:24 | Running the pass over its own output keeps every re-indented line, because its guard now precedes it |
| WrapTools.NoMarkerUnchanged | coaiapy-mcp/wrap_tools.py:9-52 | Text without a tool registration line comes back unchanged |
| AddFeatureChecks.AddLoop | coaiapy-mcp/add_feature_checks.py:12-53 | The loop computes the rewrite of the lines |
| AddFeatureChecks.AddLayout | coaiapy-mcp/add_feature_checks.py:12-53 | The output has one line per input line plus one per guard, and every input line is placed in order |
| AddFeatureChecks.UnmarkedLineKept | coaiapy-mcp/add_feature_checks.py:50-51 | A line without the marker is copied unchanged to its position |
| AddFeatureChecks.MarkerLineKept | coaiapy-mcp/add_feature_checks.py:19-49 | A marker line after a guard line, or with no name in its ten-line window, is copied unchanged |
| AddFeatureChecks.FirstLineNeverGuarded | coaiapy-mcp/add_feature_checks.py:21 | The first line is wrapped whenever it has the marker and a name in its window, whatever it holds |
| AddFeatureChecks.MarkerLineWrapped | coaiapy-mcp/add_feature_checks.py:35-46 | An unguarded marker line with a name becomes the guard with the line's indentation, that name and a line end, directly followed by the re-indented line |
| AddFeatureChecks.ReindentAfterIndent | coaiapy-mcp/add_feature_checks.py:37-45 | The four spaces go right after the line's leading whitespace |
| AddFeatureChecks.ReindentBlankIndent | coaiapy-mcp/add_feature_checks.py:37-45 | With an indentation of blanks only, the re-indented line is four spaces followed by the original |
| AddFeatureChecks.NoDoubleWrap | coaiapy-mcp/add_feature_checks.py:21 | Running the script over its own output keeps every re-indented line |
| AddFeatureChecks.NoMarkerUnchanged | coaiapy-mcp/add_feature_checks.py:9-57 | A file without a tool registration line is written back unchanged |
| AddFeatureChecks.AgreesWithWrapTools | coaiapy-mcp/add_feature_checks.py:19-41 | Past the first line, wherever `wrap_tool_definitions` inserts a guard this script inserts the same guard followed by a line end |

Each registry entry has a name, a description, a template and a list of
arguments. Each argument has a name, a description and a `required` flag.
Both facts hold by construction, through the `Prompts.Prompt` and
`Prompts.Argument` datatypes.

## Left out

- HTTP, configuration and authentication (`requests`, `read_config`, `HTTPBasicAuth`): replaced by oracle parameters.
  - The remaining endpoints of `cofuse.py` (comments, scores, datasets, traces, projects) are thin calls with no logic of their own.
- Pagination.ListPrompts: the model is `list_prompts` with the default `debug=False`. With `debug=True` the diagnostic printing can itself raise: `len(data.get('data', []))` raises TypeError for a truthy payload without a length, such as `{"data": 5}`, and `meta.get(...)` raises AttributeError for a truthy `meta` that is not a dict, such as `{"meta": [1]}`. The model does not cover that case.
- `datetime.utcnow()`: a parameter instead.
- `json.dumps` of the gathered prompts: the model returns the list of items itself.
- `json.loads`: its result is a parameter. The same holds for `yaml.safe_load`: a file is missing, corrupt or a parsed document.
- `yaml.safe_dump`: storing the value stands for it.
- SessionStore.SaveSessionFile: `yaml.safe_dump` writes dict keys in sorted order, at every level, so a reloaded file lists `nodes` before `session_id` and `name` before `trace_id`. The model keeps insertion order. Its equalities about saved and reloaded files (`LoadAfterSave`, `FreshSessionFile`, `CreateSessionTwice`, the outcome lemmas) therefore hold as Python dict equality, which ignores key order. They do not hold as equality of key order.
- Floating-point JSON numbers: numbers are integers.
- PyJson.Lookup: a `JObj` may list a key twice and `Lookup` takes the first entry, while `json.loads` keeps the last. Objects are assumed to have distinct keys, as every dict Python builds does.
- The text of an exception (`str(e)` in `format_prompts_table`): a parameter `message`, since it depends on CPython's wording.
- Python's comparison of two lists with `<`: it is treated as a TypeError rather than compared element by element. Comparing list-valued pages is not a case the fetch code expects.
- PyJson.Repr: strings are always in single quotes, and Python's choice of double quotes and its escapes are not modelled. It only matters for a version that is not a string, and for the raw value shown in the table's error text.
- Pagination.ListPrompts: the fetch is bounded by `fuel`. The Python loop is unbounded, and a server that keeps pointing to further pages makes it run forever. With the bound, that case ends in `OutOfFuel`.
- `\s` and `isdigit`: restricted to the ASCII whitespace set and the ASCII digits.
- Wider Unicode whitespace and digits: left out.
- Widths in the table: a string's length is its number of code points, and display width is not modelled.
- `str.format`: only the template subset is modelled, namely `{name}` keyword fields and doubled braces.
  - Prompts.Format: any other field text (a format spec `{a:>3}`, a conversion `{a!r}`, attribute or index access `{a.b}`, `{a[0]}`) is modelled as a ValueError. Python behaves differently: it raises KeyError for the first name when that name has no argument, so `render_prompt` reports it as a missing argument, and with the argument given it formats the field. None of the registered templates contains such a field.
  - Positional arguments are not modelled.
- The `'        '` fallback indentation in both rewriting scripts: `re.match(r'(\s*)', line)` always matches, so that branch never runs.
- File reads and writes with hard-coded paths in `bump.py`, `wrap_tools.py` and `add_feature_checks.py`: a file is its text, or `Option<string>` for `bump.py`.
  - `readlines` splits only at `\n`; the universal-newline translation of `\r\n` is not modelled.
- The command-line parts of `bump.py` (argparse, the list of package files) and the `__main__` blocks of the two scripts: they are left out.
- Bump.Rewrite: its contract describes the text up to and including the first match. Later gaps and matches follow by applying the same statement to the rest of the text, which is how the function is defined.
- PromptTable.JoinLabels: its contract states the empty-list and the raising cases. Joining a string or a dict joins its characters or keys, and that part is stated only by the definition.
