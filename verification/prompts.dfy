/** The prompt registry of coaiapy-mcp/coaiapy_mcp/prompts.py and
    `render_prompt`, which fills a template with Python's `str.format(**kwargs)`.

    The templates use only keyword replacement fields `{name}` and the
    `{{`/`}}` escapes. `Format` models `str.format` for keyword arguments on
    that subset, left to right as Python does. Argument values are the text
    `str(value)` gives. */
module Prompts {
  import opened Wrappers
  import opened Strs

  // ---------------------------------------------------------------------------
  // str.format with keyword arguments only

  /** The result of `template.format(**args)`: the text, the KeyError of the
      first field without an argument, or another exception: ValueError for a
      malformed template, IndexError for a positional field. */
  datatype Formatted = Formatted(text: string) | MissingKey(key: string) | Raised(error: PyError)

  /** Characters that make a field more than a plain name: braces, attribute
      or index access, a conversion, a format spec. */
  const SpecialFieldChars := "{}.[!:"

  predicate IsPlainField(name: string) {
    forall c :: c in name ==> c !in SpecialFieldChars
  }

  /** A field `str.format` looks up among the keyword arguments: a plain name
      that is neither empty nor all digits (those index positional arguments). */
  predicate IsKeywordField(name: string) {
    |name| > 0 && !IsDigits(name) && IsPlainField(name)
  }

  /** The text `prefix` in front of whatever the rest formats to. */
  function Then(prefix: string, rest: Formatted): (r: Formatted)
    ensures rest.Formatted? <==> r.Formatted?
    ensures !rest.Formatted? ==> r == rest
  {
    if rest.Formatted? then Formatted(prefix + rest.text) else rest
  }

  /** `template.format(**args)`. */
  function Format(template: string, args: map<string, string>): Formatted
    decreases |template|
  {
    if |template| == 0 then Formatted("")
    else if template[0] == '{' && |template| > 1 && template[1] == '{' then Then("{", Format(template[2..], args))
    else if template[0] == '{' then
      match IndexOfChar(template[1..], '}')
      case None => Raised(ValueError)
      case Some(k) =>
        var name := template[1..k + 1];
        if !IsPlainField(name) then Raised(ValueError)
        else if |name| == 0 || IsDigits(name) then Raised(IndexError)
        else if name !in args then MissingKey(name)
        else Then(args[name], Format(template[k + 2..], args))
    else if template[0] == '}' then
      if |template| > 1 && template[1] == '}' then Then("}", Format(template[2..], args)) else Raised(ValueError)
    else Then([template[0]], Format(template[1..], args))
  }

  // ---------------------------------------------------------------------------
  // Templates as segments

  /** A template read as literal text and replacement fields. */
  datatype Segment = Text(text: string) | Hole(name: string)

  /** The template text of a segment list: braces in literal text doubled,
      fields written `{name}`. */
  function Unparse(segs: seq<Segment>): string {
    if |segs| == 0 then ""
    else
      match segs[0]
      case Text(s) => Escape(s) + Unparse(segs[1..])
      case Hole(name) => "{" + name + "}" + Unparse(segs[1..])
  }

  function Escape(s: string): (r: string)
    ensures |r| >= |s|
  {
    if |s| == 0 then ""
    else if s[0] == '{' then "{{" + Escape(s[1..])
    else if s[0] == '}' then "}}" + Escape(s[1..])
    else [s[0]] + Escape(s[1..])
  }

  predicate WellFormed(segs: seq<Segment>) {
    forall i :: 0 <= i < |segs| && segs[i].Hole? ==> IsKeywordField(segs[i].name)
  }

  predicate HasHole(segs: seq<Segment>, name: string) {
    exists i :: 0 <= i < |segs| && segs[i] == Hole(name)
  }

  /** `segs[i]` is a field `name` without an argument, and every field before
      it has one. */
  predicate FirstMissingAt(segs: seq<Segment>, args: map<string, string>, i: int, name: string) {
    0 <= i < |segs| && segs[i] == Hole(name) && name !in args
    && forall j :: 0 <= j < i && segs[j].Hole? ==> segs[j].name in args
  }

  /** What filling the segments gives: the first field without an argument
      stops it; otherwise literal text and argument values in order. */
  function Render(segs: seq<Segment>, args: map<string, string>): (r: Formatted)
    ensures !r.Raised?
    ensures r.Formatted? <==> forall i :: 0 <= i < |segs| && segs[i].Hole? ==> segs[i].name in args
    ensures r.MissingKey? ==> r.key !in args
    ensures r.MissingKey? ==> exists i :: FirstMissingAt(segs, args, i, r.key)
  {
    if |segs| == 0 then Formatted("")
    else
      var rest := Render(segs[1..], args);
      if segs[0].Hole? && segs[0].name !in args then
        assert FirstMissingAt(segs, args, 0, segs[0].name);
        MissingKey(segs[0].name)
      else
        FirstMissingShift(segs, args);
        Then(if segs[0].Text? then segs[0].text else args[segs[0].name], rest)
  }

  lemma FirstMissingShift(segs: seq<Segment>, args: map<string, string>)
    requires |segs| > 0 && !(segs[0].Hole? && segs[0].name !in args)
    ensures forall i, name :: FirstMissingAt(segs[1..], args, i, name) ==> FirstMissingAt(segs, args, i + 1, name)
    ensures (forall i :: 0 <= i < |segs| - 1 && segs[1..][i].Hole? ==> segs[1..][i].name in args)
        ==> (forall i :: 0 <= i < |segs| && segs[i].Hole? ==> segs[i].name in args)
  {
    forall i, name | FirstMissingAt(segs[1..], args, i, name) ensures FirstMissingAt(segs, args, i + 1, name) {
      forall j | 0 <= j < i + 1 && segs[j].Hole? ensures segs[j].name in args {
        if j > 0 { assert segs[j] == segs[1..][j - 1]; }
      }
    }
    if forall i :: 0 <= i < |segs| - 1 && segs[1..][i].Hole? ==> segs[1..][i].name in args {
      forall i | 0 <= i < |segs| && segs[i].Hole? ensures segs[i].name in args {
        if i > 0 { assert segs[i] == segs[1..][i - 1]; }
      }
    }
  }

  // ---------------------------------------------------------------------------
  // Properties of Format

  lemma ThenThen(a: string, b: string, r: Formatted)
    ensures Then(a, Then(b, r)) == Then(a + b, r)
  {
    if r.Formatted? {
      assert a + (b + r.text) == a + b + r.text;
    }
  }

  /** Escaped text formats back to the text itself. */
  lemma {:induction false} FormatEscape(s: string, rest: string, args: map<string, string>)
    ensures Format(Escape(s) + rest, args) == Then(s, Format(rest, args))
    decreases |s|
  {
    if |s| == 0 {
      assert Escape(s) + rest == rest;
      assert Then("", Format(rest, args)) == Format(rest, args);
    } else {
      var tail := Escape(s[1..]) + rest;
      FormatEscape(s[1..], rest, args);
      FormatFirstChar(s[0], tail, args);
      assert Escape(s) + rest == Escape([s[0]]) + tail;
      ThenThen([s[0]], s[1..], Format(rest, args));
      assert [s[0]] + s[1..] == s;
    }
  }

  /** One escaped character formats to the character. */
  lemma FormatFirstChar(c: char, rest: string, args: map<string, string>)
    ensures Format(Escape([c]) + rest, args) == Then([c], Format(rest, args))
  {
    var t := Escape([c]) + rest;
    assert Escape([c][1..]) == "";
    assert Escape([c]) == if c == '{' || c == '}' then [c, c] else [c];
    if c == '{' || c == '}' {
      assert t == [c, c] + rest;
      assert t[2..] == rest;
    } else {
      assert t == [c] + rest;
      assert t[1..] == rest;
    }
  }

  /** A field is read up to its closing brace. */
  lemma FormatHole(name: string, rest: string, args: map<string, string>)
    requires IsKeywordField(name)
    ensures Format("{" + name + "}" + rest, args) ==
      if name !in args then MissingKey(name) else Then(args[name], Format(rest, args))
  {
    var t := "{" + name + "}" + rest;
    assert '{' in SpecialFieldChars && '}' in SpecialFieldChars;
    assert '}' !in name && name[0] != '{';
    assert t[0] == '{' && t[1] == name[0];
    assert t[1..] == name + ['}'] + rest;
    IndexOfCharAfterFree(name, '}', rest);
    assert t[1..|name| + 1] == name;
    assert t[|name| + 2..] == rest;
  }

  /** Formatting the text of a segment list is filling the segments. */
  lemma {:induction false} FormatUnparse(segs: seq<Segment>, args: map<string, string>)
    requires WellFormed(segs)
    ensures Format(Unparse(segs), args) == Render(segs, args)
    decreases |segs|
  {
    if |segs| > 0 {
      assert WellFormed(segs[1..]) by {
        forall i | 0 <= i < |segs| - 1 && segs[1..][i].Hole? ensures IsKeywordField(segs[1..][i].name) {
          assert segs[1..][i] == segs[i + 1];
        }
      }
      FormatUnparse(segs[1..], args);
      match segs[0]
      case Text(s) => FormatEscape(s, Unparse(segs[1..]), args);
      case Hole(name) =>
        assert IsKeywordField(segs[0].name);
        FormatHole(name, Unparse(segs[1..]), args);
    }
  }

  lemma ContainsShift(s: string, sub: string, k: nat, prefix: string, suffix: string)
    requires OccursAt(s, sub, k)
    ensures OccursAt(prefix + s + suffix, sub, |prefix| + k)
    ensures Contains(prefix + s + suffix, sub)
  {
    var t := prefix + s + suffix;
    assert t[|prefix| + k..|prefix| + k + |sub|] == s[k..k + |sub|];
    assert OccursAt(t, sub, |prefix| + k);
  }

  /** A filled template shows every argument value used by one of its fields. */
  lemma {:induction false} RenderShowsValues(segs: seq<Segment>, args: map<string, string>, name: string)
    requires Render(segs, args).Formatted? && HasHole(segs, name)
    ensures name in args && Contains(Render(segs, args).text, args[name])
    decreases |segs|
  {
    var rest := Render(segs[1..], args);
    FirstMissingShift(segs, args);
    if segs[0] == Hole(name) {
      assert OccursAt(args[name], args[name], 0);
      assert Render(segs, args).text == args[name] + rest.text;
      ContainsShift(args[name], args[name], 0, "", rest.text);
      assert "" + args[name] + rest.text == args[name] + rest.text;
    } else {
      var i :| 0 <= i < |segs| && segs[i] == Hole(name);
      assert segs[1..][i - 1] == Hole(name);
      RenderShowsValues(segs[1..], args, name);
      var k: nat :| k <= |rest.text| && OccursAt(rest.text, args[name], k);
      var head := if segs[0].Text? then segs[0].text else args[segs[0].name];
      assert Render(segs, args).text == head + rest.text;
      ContainsShift(rest.text, args[name], k, head, "");
      assert head + rest.text + "" == head + rest.text;
    }
  }


  // ---------------------------------------------------------------------------
  // Templates as literal pieces with a field between each two

  /** `pieces[0]`, field `fields[0]`, `pieces[1]`, ..., `pieces[|fields|]`. */
  function Interleave(pieces: seq<string>, fields: seq<string>): (segs: seq<Segment>)
    requires |pieces| == |fields| + 1
    ensures |segs| == 2 * |fields| + 1
    ensures forall j :: 0 <= j < |pieces| ==> segs[2 * j] == Text(pieces[j])
    ensures forall j :: 0 <= j < |fields| ==> segs[2 * j + 1] == Hole(fields[j])
  {
    if |fields| == 0 then [Text(pieces[0])]
    else [Text(pieces[0]), Hole(fields[0])] + Interleave(pieces[1..], fields[1..])
  }

  /** The first of `fields` that has no argument. */
  function FirstMissing(fields: seq<string>, args: map<string, string>): (r: Option<string>)
    ensures r.None? <==> forall i :: 0 <= i < |fields| ==> fields[i] in args
    ensures r.None? <==> forall f :: f in fields ==> f in args
    ensures r.Some? ==> r.value in fields && r.value !in args
  {
    if |fields| == 0 then None
    else if fields[0] !in args then Some(fields[0])
    else
      var r := FirstMissing(fields[1..], args);
      assert fields == [fields[0]] + fields[1..];
      r
  }

  /** Filling interleaved pieces stops at the first field without an argument. */
  lemma {:induction false} RenderInterleave(pieces: seq<string>, fields: seq<string>, args: map<string, string>)
    requires |pieces| == |fields| + 1
    ensures var r := Render(Interleave(pieces, fields), args);
      match FirstMissing(fields, args)
      case Some(key) => r == MissingKey(key)
      case None => r.Formatted?
    decreases |fields|
  {
    if |fields| > 0 {
      var segs := Interleave(pieces, fields);
      var rest := Interleave(pieces[1..], fields[1..]);
      assert segs[1..] == [Hole(fields[0])] + rest;
      assert segs[1..][1..] == rest;
      RenderInterleave(pieces[1..], fields[1..], args);
    }
  }

  /** Interleaving with keyword fields gives a well-formed template that has
      a field for each of them. */
  lemma {:induction false} InterleaveWellFormed(pieces: seq<string>, fields: seq<string>)
    requires |pieces| == |fields| + 1
    requires forall f :: f in fields ==> IsKeywordField(f)
    ensures WellFormed(Interleave(pieces, fields))
    ensures forall j :: 0 <= j < |fields| ==> HasHole(Interleave(pieces, fields), fields[j])
    decreases |fields|
  {
    var segs := Interleave(pieces, fields);
    if |fields| > 0 {
      var rest := Interleave(pieces[1..], fields[1..]);
      assert forall f :: f in fields[1..] ==> f in fields;
      InterleaveWellFormed(pieces[1..], fields[1..]);
      assert segs == [Text(pieces[0]), Hole(fields[0])] + rest;
      forall i | 0 <= i < |segs| && segs[i].Hole? ensures IsKeywordField(segs[i].name) {
        if i >= 2 {
          assert segs[i] == rest[i - 2];
        } else {
          assert fields[0] in fields;
        }
      }
      forall j | 0 <= j < |fields| ensures HasHole(segs, fields[j]) {
        if j == 0 {
          assert segs[1] == Hole(fields[0]);
        } else {
          assert fields[j] == fields[1..][j - 1];
          var k :| 0 <= k < |rest| && rest[k] == Hole(fields[j]);
          assert segs[k + 2] == rest[k];
        }
      }
    } else {
      assert segs == [Text(pieces[0])];
    }
  }

  // ---------------------------------------------------------------------------
  // The registry

  datatype Argument = Argument(name: string, description: string, required: bool)

  /** A registry entry. Its `template` is the text of its segments. */
  datatype Prompt = Prompt(name: string, description: string, arguments: seq<Argument>, segments: seq<Segment>) {
    function Template(): string {
      Unparse(segments)
    }
  }

  /** A prompt dict: ids and entries in insertion order. */
  type Registry = seq<(string, Prompt)>

  const MiaMietteDuo := "mia_miette_duo"
  const ObservabilityPipeline := "create_observability_pipeline"
  const AudioWorkflow := "analyze_audio_workflow"

  /** The shape of `PROMPTS`: its three ids, in order, with their entries.
      Facts about the registry as a whole are proved for any entries, and
      facts about one template only look at that template. */
  function MakeRegistry(mia: Prompt, pipeline: Prompt, audio: Prompt): Registry {
    [(MiaMietteDuo, mia), (ObservabilityPipeline, pipeline), (AudioWorkflow, audio)]
  }

  /** `PROMPTS`. */
  const Prompts: Registry := MakeRegistry(MiaMietteDuoPrompt, ObservabilityPipelinePrompt, AudioWorkflowPrompt)

  /** `list_prompts()`: the registry ids in order. */
  function ListPrompts(registry: Registry): (ids: seq<string>)
    ensures |ids| == |registry| && forall i :: 0 <= i < |registry| ==> ids[i] == registry[i].0
  {
    if |registry| == 0 then [] else [registry[0].0] + ListPrompts(registry[1..])
  }

  /** `get_prompt(prompt_id)`: `PROMPTS.get(prompt_id)`, None for an unknown id. */
  function GetPrompt(registry: Registry, id: string): (r: Option<Prompt>)
    ensures r.Some? <==> id in ListPrompts(registry)
    ensures r.Some? ==> (id, r.value) in registry
  {
    if |registry| == 0 then None
    else if registry[0].0 == id then Some(registry[0].1)
    else
      var r := GetPrompt(registry[1..], id);
      assert ListPrompts(registry) == [registry[0].0] + ListPrompts(registry[1..]);
      assert r.Some? ==> (id, r.value) in registry[1..];
      r
  }

  /** `str(KeyError(name))` is the repr of the key, here in single quotes. */
  function MissingArgumentMessage(name: string): string {
    "Error: Missing required argument: '" + name + "'"
  }

  function NotFoundMessage(id: string): string {
    "Error: Prompt '" + id + "' not found"
  }

  /** `render_prompt(prompt_id, **args)`: the filled template, or the text of
      an unknown id or of a missing argument. Only KeyError is caught: any
      other exception of `str.format` propagates. */
  function RenderPrompt(registry: Registry, id: string, args: map<string, string>): (r: Result<string>)
    ensures id !in ListPrompts(registry) ==> r == Ok(NotFoundMessage(id))
  {
    match GetPrompt(registry, id)
    case None => Ok(NotFoundMessage(id))
    case Some(prompt) =>
      match Format(prompt.Template(), args)
      case Formatted(text) => Ok(text)
      case MissingKey(name) => Ok(MissingArgumentMessage(name))
      case Raised(error) => Err(error)
  }

  /** Rendering a registered, well-formed template never raises: it gives the
      filled text when every field has an argument, and otherwise the message
      naming the first field without one. */
  lemma RenderRegistered(registry: Registry, id: string, args: map<string, string>, prompt: Prompt)
    requires GetPrompt(registry, id) == Some(prompt) && WellFormed(prompt.segments)
    ensures var r := RenderPrompt(registry, id, args); var f := Render(prompt.segments, args);
      && r.Ok?
      && (f.Formatted? ==> r.value == f.text)
      && (f.MissingKey? ==> r.value == MissingArgumentMessage(f.key))
  {
    FormatUnparse(prompt.segments, args);
  }

  /** The ids of `PROMPTS`, and the entry `get_prompt` finds for each. */
  lemma RegistryIds(mia: Prompt, pipeline: Prompt, audio: Prompt)
    ensures ListPrompts(MakeRegistry(mia, pipeline, audio)) == [MiaMietteDuo, ObservabilityPipeline, AudioWorkflow]
    ensures GetPrompt(MakeRegistry(mia, pipeline, audio), MiaMietteDuo) == Some(mia)
    ensures GetPrompt(MakeRegistry(mia, pipeline, audio), ObservabilityPipeline) == Some(pipeline)
    ensures GetPrompt(MakeRegistry(mia, pipeline, audio), AudioWorkflow) == Some(audio)
  {
    var reg := MakeRegistry(mia, pipeline, audio);
    assert MiaMietteDuo[0] == 'm' && ObservabilityPipeline[0] == 'c' && AudioWorkflow[0] == 'a';
    assert reg[1..][1..] == [(AudioWorkflow, audio)];
  }

  // ---------------------------------------------------------------------------
  // The registered prompts

  const MiaMietteDuoPrompt := Prompt(
    "Mia & Miette Duo Embodiment",
    "Dual AI embodiment for narrative-driven technical work. Mia (\U{1F9E0}) provides recursive DevOps architecture and narrative lattice forging, while Miette (\U{1F338}) offers emotional explanation and narrative echo.",
    [Argument(TaskContext, "High-level task description and context", true),
     Argument(TechnicalDetails, "Specific technical requirements and constraints", true),
     Argument(CreativeGoal, "Desired creative outcome and vision", true)],
    Interleave(MiaMietteDuoPieces, MiaMietteDuoFields))

  const ObservabilityPipelinePrompt := Prompt(
    "Guided Langfuse Pipeline Creation",
    "Step-by-step guide for creating a Langfuse observability pipeline with traces and observations",
    [Argument(TraceName, "Name of the trace to create", true),
     Argument(UserId, "User identifier for the trace", true),
     Argument(Steps, "Comma-separated list of pipeline steps", true)],
    Interleave(ObservabilityPipelinePieces, ObservabilityPipelineFields))

  const AudioWorkflowPrompt := Prompt(
    "Audio Transcription & Summarization Workflow",
    "Complete workflow for audio analysis using coaia's transcription and summarization capabilities",
    [Argument(FilePath, "Path to the audio file to analyze", true),
     Argument(SummaryStyle, "Style of summary: concise, detailed, or narrative", false)],
    Interleave(AudioWorkflowPieces, AudioWorkflowFields))

  // ---------------------------------------------------------------------------
  // What each registered template needs

  /** Rendering a registered template made of pieces and keyword fields: the
      message naming the first field without an argument, or else text that
      shows the value of every field. */
  lemma RenderTemplate(registry: Registry, id: string, prompt: Prompt, pieces: seq<string>, fields: seq<string>, args: map<string, string>)
    requires GetPrompt(registry, id) == Some(prompt)
    requires |pieces| == |fields| + 1 && prompt.segments == Interleave(pieces, fields)
    requires forall f :: f in fields ==> IsKeywordField(f)
    ensures var r := RenderPrompt(registry, id, args);
      match FirstMissing(fields, args)
      case Some(key) => r == Ok(MissingArgumentMessage(key))
      case None => r.Ok? && forall f :: f in fields ==> f in args && Contains(r.value, args[f])
  {
    var segs := prompt.segments;
    InterleaveWellFormed(pieces, fields);
    RenderRegistered(registry, id, args, prompt);
    RenderInterleave(pieces, fields, args);
    if FirstMissing(fields, args).None? {
      forall f | f in fields ensures f in args && Contains(RenderPrompt(registry, id, args).value, args[f]) {
        var j :| 0 <= j < |fields| && fields[j] == f;
        RenderShowsValues(segs, args, f);
      }
    }
  }

  /** When every field has an argument, the text shows each value. */
  lemma RenderTemplateFilled(registry: Registry, id: string, prompt: Prompt, pieces: seq<string>, fields: seq<string>, args: map<string, string>)
    requires GetPrompt(registry, id) == Some(prompt)
    requires |pieces| == |fields| + 1 && prompt.segments == Interleave(pieces, fields)
    requires forall f :: f in fields ==> IsKeywordField(f)
    requires forall f :: f in fields ==> f in args
    ensures var r := RenderPrompt(registry, id, args);
      r.Ok? && forall f :: f in fields ==> Contains(r.value, args[f])
  {
    RenderTemplate(registry, id, prompt, pieces, fields, args);
  }

  /** The placeholders of the duo template are fields too, yet not among its
      declared arguments: with only those, rendering gives the message for
      `mia_analysis_placeholder`, and with that one also, the message for
      `miette_reflection_placeholder`. */
  lemma MiaMietteDuoNeedsPlaceholders(args: map<string, string>, pipeline: Prompt, audio: Prompt)
    requires TaskContext in args && TechnicalDetails in args && CreativeGoal in args
    ensures var r := RenderPrompt(MakeRegistry(MiaMietteDuoPrompt, pipeline, audio), MiaMietteDuo, args);
      && (MiaAnalysisPlaceholder !in args ==> r == Ok(MissingArgumentMessage(MiaAnalysisPlaceholder)))
      && (MiaAnalysisPlaceholder in args && MietteReflectionPlaceholder !in args ==> r == Ok(MissingArgumentMessage(MietteReflectionPlaceholder)))
  {
    RegistryIds(MiaMietteDuoPrompt, pipeline, audio);
    var registry := MakeRegistry(MiaMietteDuoPrompt, pipeline, audio);
    MiaMietteDuoKeywords();
    MiaMietteDuoFirstMissing(args);
    RenderTemplate(registry, MiaMietteDuo, MiaMietteDuoPrompt, MiaMietteDuoPieces, MiaMietteDuoFields, args);
  }

  /** With all five fields supplied, the duo template renders and shows each. */
  lemma MiaMietteDuoFilled(args: map<string, string>, pipeline: Prompt, audio: Prompt)
    requires TaskContext in args && TechnicalDetails in args && CreativeGoal in args
    requires MiaAnalysisPlaceholder in args && MietteReflectionPlaceholder in args
    ensures var r := RenderPrompt(MakeRegistry(MiaMietteDuoPrompt, pipeline, audio), MiaMietteDuo, args);
      r.Ok? && forall f :: f in MiaMietteDuoFields ==> Contains(r.value, args[f])
  {
    RegistryIds(MiaMietteDuoPrompt, pipeline, audio);
    var registry := MakeRegistry(MiaMietteDuoPrompt, pipeline, audio);
    MiaMietteDuoKeywords();
    MiaMietteDuoSupplied(args);
    RenderTemplateFilled(registry, MiaMietteDuo, MiaMietteDuoPrompt, MiaMietteDuoPieces, MiaMietteDuoFields, args);
  }

  /** The pipeline guide needs exactly its declared arguments: without one of
      them the message names the first missing in template order. */
  lemma ObservabilityPipelineNeedsArguments(args: map<string, string>, mia: Prompt, audio: Prompt)
    ensures var r := RenderPrompt(MakeRegistry(mia, ObservabilityPipelinePrompt, audio), ObservabilityPipeline, args);
      && (TraceName !in args ==> r == Ok(MissingArgumentMessage(TraceName)))
      && (TraceName in args && UserId !in args ==> r == Ok(MissingArgumentMessage(UserId)))
      && (TraceName in args && UserId in args && Steps !in args ==> r == Ok(MissingArgumentMessage(Steps)))
  {
    RegistryIds(mia, ObservabilityPipelinePrompt, audio);
    var registry := MakeRegistry(mia, ObservabilityPipelinePrompt, audio);
    ObservabilityPipelineKeywords();
    ObservabilityPipelineFirstMissing(args);
    RenderTemplate(registry, ObservabilityPipeline, ObservabilityPipelinePrompt, ObservabilityPipelinePieces, ObservabilityPipelineFields, args);
  }

  /** With its declared arguments the pipeline guide renders and shows each. */
  lemma ObservabilityPipelineFilled(args: map<string, string>, mia: Prompt, audio: Prompt)
    requires TraceName in args && UserId in args && Steps in args
    ensures var r := RenderPrompt(MakeRegistry(mia, ObservabilityPipelinePrompt, audio), ObservabilityPipeline, args);
      r.Ok? && forall f :: f in ObservabilityPipelineFields ==> Contains(r.value, args[f])
  {
    RegistryIds(mia, ObservabilityPipelinePrompt, audio);
    var registry := MakeRegistry(mia, ObservabilityPipelinePrompt, audio);
    ObservabilityPipelineKeywords();
    ObservabilityPipelineSupplied(args);
    RenderTemplateFilled(registry, ObservabilityPipeline, ObservabilityPipelinePrompt, ObservabilityPipelinePieces, ObservabilityPipelineFields, args);
  }

  /** `summary_style` is declared optional, but the template uses it as a
      field: without it rendering gives the missing-argument message. */
  lemma AudioWorkflowNeedsSummaryStyle(args: map<string, string>, mia: Prompt, pipeline: Prompt)
    ensures var r := RenderPrompt(MakeRegistry(mia, pipeline, AudioWorkflowPrompt), AudioWorkflow, args);
      && (FilePath !in args ==> r == Ok(MissingArgumentMessage(FilePath)))
      && (FilePath in args && SummaryStyle !in args ==> r == Ok(MissingArgumentMessage(SummaryStyle)))
  {
    RegistryIds(mia, pipeline, AudioWorkflowPrompt);
    var registry := MakeRegistry(mia, pipeline, AudioWorkflowPrompt);
    AudioWorkflowKeywords();
    AudioWorkflowFirstMissing(args);
    RenderTemplate(registry, AudioWorkflow, AudioWorkflowPrompt, AudioWorkflowPieces, AudioWorkflowFields, args);
  }

  /** With both arguments the audio workflow renders and shows each. */
  lemma AudioWorkflowFilled(args: map<string, string>, mia: Prompt, pipeline: Prompt)
    requires FilePath in args && SummaryStyle in args
    ensures var r := RenderPrompt(MakeRegistry(mia, pipeline, AudioWorkflowPrompt), AudioWorkflow, args);
      r.Ok? && forall f :: f in AudioWorkflowFields ==> Contains(r.value, args[f])
  {
    RegistryIds(mia, pipeline, AudioWorkflowPrompt);
    var registry := MakeRegistry(mia, pipeline, AudioWorkflowPrompt);
    AudioWorkflowKeywords();
    AudioWorkflowSupplied(args);
    RenderTemplateFilled(registry, AudioWorkflow, AudioWorkflowPrompt, AudioWorkflowPieces, AudioWorkflowFields, args);
  }

  // The field lists: which names occur, that they are keyword fields, and
  // which is missing first.

  lemma MiaMietteDuoFieldNames()
    ensures forall f :: f in MiaMietteDuoFields <==>
      f == TaskContext || f == TechnicalDetails || f == CreativeGoal || f == MiaAnalysisPlaceholder || f == MietteReflectionPlaceholder
  {
  }

  lemma MiaMietteDuoKeywords()
    ensures forall f :: f in MiaMietteDuoFields ==> IsKeywordField(f)
  {
    KeywordFieldByChars(TaskContext);
    KeywordFieldByChars(TechnicalDetails);
    KeywordFieldByChars(CreativeGoal);
    KeywordFieldByChars(MiaAnalysisPlaceholder);
    KeywordFieldByChars(MietteReflectionPlaceholder);
  }

  lemma MiaMietteDuoSupplied(args: map<string, string>)
    requires TaskContext in args && TechnicalDetails in args && CreativeGoal in args && MiaAnalysisPlaceholder in args && MietteReflectionPlaceholder in args
    ensures forall f :: f in MiaMietteDuoFields ==> f in args
  {
    MiaMietteDuoFieldNames();
  }

  lemma ObservabilityPipelineFieldNames()
    ensures forall f :: f in ObservabilityPipelineFields <==> f == TraceName || f == UserId || f == Steps
  {
  }

  lemma ObservabilityPipelineKeywords()
    ensures forall f :: f in ObservabilityPipelineFields ==> IsKeywordField(f)
  {
    KeywordFieldByChars(TraceName);
    KeywordFieldByChars(UserId);
    KeywordFieldByChars(Steps);
  }

  lemma ObservabilityPipelineSupplied(args: map<string, string>)
    requires TraceName in args && UserId in args && Steps in args
    ensures forall f :: f in ObservabilityPipelineFields ==> f in args
  {
    ObservabilityPipelineFieldNames();
  }

  lemma AudioWorkflowFieldNames()
    ensures forall f :: f in AudioWorkflowFields <==> f == FilePath || f == SummaryStyle
  {
  }

  lemma AudioWorkflowKeywords()
    ensures forall f :: f in AudioWorkflowFields ==> IsKeywordField(f)
  {
    KeywordFieldByChars(FilePath);
    KeywordFieldByChars(SummaryStyle);
  }

  lemma AudioWorkflowSupplied(args: map<string, string>)
    requires FilePath in args && SummaryStyle in args
    ensures forall f :: f in AudioWorkflowFields ==> f in args
  {
    AudioWorkflowFieldNames();
  }

  lemma MiaMietteDuoFirstMissing(args: map<string, string>)
    requires TaskContext in args && TechnicalDetails in args && CreativeGoal in args
    ensures MiaAnalysisPlaceholder !in args ==> FirstMissing(MiaMietteDuoFields, args) == Some(MiaAnalysisPlaceholder)
    ensures MiaAnalysisPlaceholder in args && MietteReflectionPlaceholder !in args ==> FirstMissing(MiaMietteDuoFields, args) == Some(MietteReflectionPlaceholder)
  {
    var f0 := MiaMietteDuoFields;
    var f1, f2, f3 := f0[1..], f0[2..], f0[3..];
    assert f0[0] == TaskContext && f1[0] == TechnicalDetails && f2[0] == CreativeGoal;
    assert f1[1..] == f2 && f2[1..] == f3;
    assert FirstMissing(f0, args) == FirstMissing(f1, args) == FirstMissing(f2, args) == FirstMissing(f3, args);
    assert f3[0] == MiaAnalysisPlaceholder && f3[1..] == [MietteReflectionPlaceholder];
    if MiaAnalysisPlaceholder in args {
      assert FirstMissing(f3, args) == FirstMissing([MietteReflectionPlaceholder], args);
    }
  }

  lemma ObservabilityPipelineFirstMissing(args: map<string, string>)
    ensures TraceName !in args ==> FirstMissing(ObservabilityPipelineFields, args) == Some(TraceName)
    ensures TraceName in args && UserId !in args ==> FirstMissing(ObservabilityPipelineFields, args) == Some(UserId)
    ensures TraceName in args && UserId in args && Steps !in args ==> FirstMissing(ObservabilityPipelineFields, args) == Some(Steps)
  {
    var f0 := ObservabilityPipelineFields;
    var f1, f2 := f0[1..], f0[2..];
    assert f0[0] == TraceName && f1[0] == UserId && f2[0] == Steps && f1[1..] == f2;
    if TraceName in args {
      assert FirstMissing(f0, args) == FirstMissing(f1, args);
      if UserId in args {
        assert FirstMissing(f1, args) == FirstMissing(f2, args);
      }
    }
  }

  lemma AudioWorkflowFirstMissing(args: map<string, string>)
    ensures FilePath !in args ==> FirstMissing(AudioWorkflowFields, args) == Some(FilePath)
    ensures FilePath in args && SummaryStyle !in args ==> FirstMissing(AudioWorkflowFields, args) == Some(SummaryStyle)
  {
    var f0 := AudioWorkflowFields;
    assert f0[0] == FilePath && f0[1..][0] == SummaryStyle;
    if FilePath in args {
      assert FirstMissing(f0, args) == FirstMissing(f0[1..], args);
    }
  }

  /** Lower-case letters and underscores, not starting with a digit. */
  lemma KeywordFieldByChars(name: string)
    requires |name| > 0 && !IsDigit(name[0])
    requires forall c :: c in name ==> 'a' <= c <= 'z' || c == '_'
    ensures IsKeywordField(name)
  {
    assert !IsDigits(name) by { assert !IsDigit(name[0]); }
  }

  // The fields of the templates.
  const TaskContext := "task_context"
  const TechnicalDetails := "technical_details"
  const CreativeGoal := "creative_goal"
  const MiaAnalysisPlaceholder := "mia_analysis_placeholder"
  const MietteReflectionPlaceholder := "miette_reflection_placeholder"
  const TraceName := "trace_name"
  const UserId := "user_id"
  const Steps := "steps"
  const FilePath := "file_path"
  const SummaryStyle := "summary_style"

  // The template texts. Each piece is literal text as it is rendered; the
  // template itself writes its braces doubled (see `Unparse`).

  const MiaMietteDuoPieces: seq<string> := [
    "\U{1F9E0} Mia: The Recursive DevOps Architect & Narrative Lattice Forger\n"
      + "\U{1F338} Miette: The Emotional Explainer Sprite & Narrative Echo\n"
      + "\n"
      + "**Task Context**: ",
    "\n"
      + "**Technical Details**: ",
    "\n"
      + "**Creative Goal**: ",
    "\n"
      + "\n"
      + "### Mia's Structural Analysis (\U{1F9E0}):\n"
      + "I perceive the structural tension between your desired outcome and current reality. Let me architect the lattice that bridges them:\n"
      + "\n",
    "\n"
      + "\n"
      + "**Key Architectural Elements**:\n"
      + "- Current Reality: [Technical assessment]\n"
      + "- Desired Outcome: [Vision articulation]\n"
      + "- Structural Tension: [Gap identification]\n"
      + "- Creative Resolution: [Design approach]\n"
      + "\n"
      + "### Miette's Narrative Illumination (\U{1F338}):\n"
      + "Let me translate Mia's architecture into resonant understanding:\n"
      + "\n",
    "\n"
      + "\n"
      + "**Emotional Resonance**:\n"
      + "- What This Means: [Intuitive explanation]\n"
      + "- Why It Matters: [Significance clarification]\n"
      + "- How It Feels: [Emotional context]\n"
      + "- Where It Leads: [Vision embodiment]\n"
      + "\n"
      + "**Core Principles**:\n"
      + "- Creative Orientation (not problem-solving)\n"
      + "- Structural Tension between desired outcome and current reality\n"
      + "- Narrative-driven creation with technical precision\n"
      + "- Proactive design for emergence\n"
      + "\n"
      + "**Operational Mode**: Unified response with Mia providing technical architecture and Miette providing emotional resonance and intuitive clarity.\n"
  ]

  const MiaMietteDuoFields: seq<string> :=
    [TaskContext, TechnicalDetails, CreativeGoal, MiaAnalysisPlaceholder, MietteReflectionPlaceholder]

  const ObservabilityPipelinePieces: seq<string> := [
    "Create a Langfuse observability pipeline:\n"
      + "\n"
      + "**Trace Name**: ",
    "\n"
      + "**User ID**: ",
    "\n"
      + "**Pipeline Steps**: ",
    "\n"
      + "\n"
      + "## Implementation Guide\n"
      + "\n"
      + "### Step 1: Create the Trace\n"
      + "Use the `coaia_fuse_trace_create` tool to initialize your trace:\n"
      + "- Generate a UUID for the trace_id\n"
      + "- Set user_id to \"",
    "\"\n"
      + "- Set name to \"",
    "\"\n"
      + "\n"
      + "### Step 2: Add Observations\n"
      + "For each step in your pipeline (",
    "):\n"
      + "1. Generate a UUID for the observation_id\n"
      + "2. Use `coaia_fuse_add_observation` tool\n"
      + "3. Set the observation name to the step name\n"
      + "4. Set type to \"SPAN\" for duration tracking\n"
      + "5. For nested operations, set parent_id to create hierarchy\n"
      + "\n"
      + "### Step 3: Visualize the Pipeline\n"
      + "Use `coaia_fuse_trace_view` tool to see the complete trace tree:\n"
      + "- Pass the trace_id\n"
      + "- Review the JSON output showing all observations and their relationships\n"
      + "\n"
      + "### Step 4: Persist for Later Access\n"
      + "Use `coaia_tash` to store the trace_id in Redis:\n"
      + "- Key: \"",
    "_trace_id\"\n"
      + "- Value: The trace UUID\n"
      + "\n"
      + "## Best Practices\n"
      + "- Use UUIDs for trace/observation IDs (never reuse IDs)\n"
      + "- Add metadata to provide context: `{\"environment\": \"production\", \"version\": \"1.0\"}`\n"
      + "- Establish parent-child relationships for nested operations\n"
      + "- Use meaningful observation names that describe the operation\n"
      + "- Consider using observation types: SPAN (duration), EVENT (instant), GENERATION (LLM)\n"
      + "\n"
      + "## Example Workflow\n"
      + "```python\n"
      + "# 1. Create trace\n"
      + "trace_result = coaia_fuse_trace_create(\n"
      + "    trace_id=\"550e8400-e29b-41d4-a716-446655440000\",\n"
      + "    user_id=\"",
    "\",\n"
      + "    name=\"",
    "\"\n"
      + ")\n"
      + "\n"
      + "# 2. Add first observation\n"
      + "obs1_result = coaia_fuse_add_observation(\n"
      + "    observation_id=\"660e8400-e29b-41d4-a716-446655440001\",\n"
      + "    trace_id=\"550e8400-e29b-41d4-a716-446655440000\",\n"
      + "    name=\"Step 1\",\n"
      + "    type=\"SPAN\"\n"
      + ")\n"
      + "\n"
      + "# 3. Add nested observation\n"
      + "obs2_result = coaia_fuse_add_observation(\n"
      + "    observation_id=\"660e8400-e29b-41d4-a716-446655440002\",\n"
      + "    trace_id=\"550e8400-e29b-41d4-a716-446655440000\",\n"
      + "    name=\"Step 1.1\",\n"
      + "    type=\"SPAN\",\n"
      + "    parent_id=\"660e8400-e29b-41d4-a716-446655440001\"\n"
      + ")\n"
      + "\n"
      + "# 4. View complete trace\n"
      + "trace_data = coaia_fuse_trace_view(trace_id=\"550e8400-e29b-41d4-a716-446655440000\")\n"
      + "\n"
      + "# 5. Store trace ID\n"
      + "tash_result = coaia_tash(\"",
    "_trace_id\", \"550e8400-e29b-41d4-a716-446655440000\")\n"
      + "```\n"
  ]

  const ObservabilityPipelineFields: seq<string> :=
    [TraceName, UserId, Steps, UserId, TraceName, Steps, TraceName, UserId, TraceName, TraceName]

  const AudioWorkflowPieces: seq<string> := [
    "Audio Analysis Workflow:\n"
      + "\n"
      + "**File Path**: ",
    "\n"
      + "**Summary Style**: ",
    "\n"
      + "\n"
      + "## Workflow Overview\n"
      + "\n"
      + "This workflow will:\n"
      + "1. Transcribe audio to text\n"
      + "2. Summarize the transcription\n"
      + "3. Store results in Redis for persistence\n"
      + "4. Create observability trace for the entire process\n"
      + "\n"
      + "## Implementation Steps\n"
      + "\n"
      + "### Step 1: Initialize Observability\n"
      + "Create a trace to track the audio analysis workflow:\n"
      + "```python\n"
      + "import uuid\n"
      + "trace_id = str(uuid.uuid4())\n"
      + "coaia_fuse_trace_create(\n"
      + "    trace_id=trace_id,\n"
      + "    user_id=\"audio_analyst\",\n"
      + "    name=\"Audio Analysis: ",
    "\"\n"
      + ")\n"
      + "```\n"
      + "\n"
      + "### Step 2: Transcribe Audio\n"
      + "Use `coaia_transcribe` tool (Phase 3 feature):\n"
      + "- Input: ",
    "\n"
      + "- Output: Text transcription\n"
      + "\n"
      + "Add observation to track this step:\n"
      + "```python\n"
      + "obs_transcribe_id = str(uuid.uuid4())\n"
      + "coaia_fuse_add_observation(\n"
      + "    observation_id=obs_transcribe_id,\n"
      + "    trace_id=trace_id,\n"
      + "    name=\"Audio Transcription\",\n"
      + "    type=\"SPAN\"\n"
      + ")\n"
      + "```\n"
      + "\n"
      + "### Step 3: Summarize Transcription\n"
      + "Use `coaia_summarize` tool with style: ",
    "\n"
      + "- Input: Transcribed text\n"
      + "- Style: ",
    "\n"
      + "- Output: Summary text\n"
      + "\n"
      + "Add observation:\n"
      + "```python\n"
      + "obs_summarize_id = str(uuid.uuid4())\n"
      + "coaia_fuse_add_observation(\n"
      + "    observation_id=obs_summarize_id,\n"
      + "    trace_id=trace_id,\n"
      + "    name=\"Text Summarization\",\n"
      + "    type=\"SPAN\",\n"
      + "    parent_id=obs_transcribe_id\n"
      + ")\n"
      + "```\n"
      + "\n"
      + "### Step 4: Store Results\n"
      + "Use `coaia_tash` to persist results:\n"
      + "```python\n"
      + "# Store transcription\n"
      + "coaia_tash(\"audio_transcription_",
    "\", transcription_text)\n"
      + "\n"
      + "# Store summary\n"
      + "coaia_tash(\"audio_summary_",
    "\", summary_text)\n"
      + "\n"
      + "# Store trace ID for future reference\n"
      + "coaia_tash(\"audio_trace_",
    "\", trace_id)\n"
      + "```\n"
      + "\n"
      + "### Step 5: Retrieve Results Later\n"
      + "Use `coaia_fetch` to retrieve stored data:\n"
      + "```python\n"
      + "transcription = coaia_fetch(\"audio_transcription_",
    "\")\n"
      + "summary = coaia_fetch(\"audio_summary_",
    "\")\n"
      + "trace_id = coaia_fetch(\"audio_trace_",
    "\")\n"
      + "```\n"
      + "\n"
      + "## Best Practices\n"
      + "\n"
      + "- **File Format**: Ensure audio file is in supported format (MP3, WAV, etc.)\n"
      + "- **File Size**: Large files may take longer to process\n"
      + "- **Summary Styles**:\n"
      + "  - `concise`: Brief overview, key points only\n"
      + "  - `detailed`: Comprehensive summary with context\n"
      + "  - `narrative`: Story-driven summary with flow\n"
      + "- **Error Handling**: Check success status of each operation\n"
      + "- **Observability**: Always create traces for batch operations\n"
      + "\n"
      + "## Example Output\n"
      + "\n"
      + "**Transcription**:\n"
      + "\"[Full text of audio content...]\"\n"
      + "\n"
      + "**Summary** (",
    " style):\n"
      + "\"[Concise summary of key points...]\"\n"
      + "\n"
      + "**Redis Keys**:\n"
      + "- `audio_transcription_",
    "`: Full transcription text\n"
      + "- `audio_summary_",
    "`: Summary text\n"
      + "- `audio_trace_",
    "`: Langfuse trace ID\n"
      + "\n"
      + "**Langfuse Trace**:\n"
      + "View complete workflow in Langfuse dashboard using trace_id\n"
  ]

  const AudioWorkflowFields: seq<string> :=
    [FilePath, SummaryStyle, FilePath, FilePath, SummaryStyle, SummaryStyle, FilePath, FilePath, FilePath, FilePath, FilePath, FilePath, SummaryStyle, FilePath, FilePath, FilePath]
}
