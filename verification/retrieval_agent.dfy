/**
 * The retrieval agent's `execute` (agents/retrieval_agent.py): it describes
 * the retrieval task to a crew, runs the crew, and turns whatever the crew
 * returns into one string. The crew itself (agents, language model, kickoff)
 * is a parameter: the model knows it only by the output it gives for a task
 * description.
 */
module RetrievalAgent {
  import opened Strings
  import opened Py

  const DefaultTopK := 3
  const DefaultReturnSources := 2

  /** One task output, known by the four attributes `execute` looks at (`PyNone` when missing). */
  datatype TaskOutput = TaskOutput(raw: Value, output: Value, result: Value, finalOutput: Value)

  /**
   * What `crew.kickoff()` returns: its `raw` attribute (`PyNone` when
   * missing), its `tasks_output` (`None` when missing or `None`), and its
   * `str()`.
   */
  datatype CrewOutput = CrewOutput(raw: Value, tasksOutput: Option<seq<TaskOutput>>, repr: string)

  /**
   * `isinstance(v, str) and v.strip()`: a string with a non-whitespace
   * character (its strip is non-empty exactly then, see `StripProperties`).
   */
  predicate NonBlankStr(v: Value)
  {
    v.PyStr? && !IsBlank(v.s)
  }

  /** The four attributes in the order `execute` tries them. */
  function Attributes(t: TaskOutput): seq<Value>
  {
    [t.raw, t.output, t.result, t.finalOutput]
  }

  /** The position of the first non-blank string among `vals`, or `|vals|` when there is none. */
  function FirstNonBlankIndex(vals: seq<Value>): (i: nat)
    ensures i <= |vals|
    decreases |vals|
  {
    if |vals| == 0 || NonBlankStr(vals[0]) then 0
    else 1 + FirstNonBlankIndex(vals[1..])
  }

  /** The index found is the first non-blank string: everything before it is not one. */
  lemma {:induction false} FirstNonBlankIndexIsFirst(vals: seq<Value>)
    ensures forall j :: 0 <= j < FirstNonBlankIndex(vals) ==> !NonBlankStr(vals[j])
    ensures FirstNonBlankIndex(vals) < |vals| ==> NonBlankStr(vals[FirstNonBlankIndex(vals)])
    decreases |vals|
  {
    if |vals| > 0 && !NonBlankStr(vals[0]) {
      FirstNonBlankIndexIsFirst(vals[1..]);
      assert forall j :: 0 < j < |vals| ==> vals[j] == vals[1..][j - 1];
    }
  }

  /**
   * The part a task output contributes: the stripped value of the first of
   * its attributes that is a non-blank string, if any.
   */
  function FirstNonBlank(vals: seq<Value>): Option<string>
  {
    var i := FirstNonBlankIndex(vals);
    if i < |vals| && vals[i].PyStr? then Some(Strip(vals[i].s)) else None
  }

  /** `getattr(out, "tasks_output", []) or []`. */
  function TasksOf(out: CrewOutput): seq<TaskOutput>
  {
    if out.tasksOutput.Some? then out.tasksOutput.value else []
  }

  /** The `parts` list: at most one part per task output, in task order. */
  function Parts(tasks: seq<TaskOutput>): (parts: seq<string>)
    ensures |parts| <= |tasks|
    decreases |tasks|
  {
    if |tasks| == 0 then []
    else Parts(tasks[..|tasks| - 1]) + PartOf(tasks[|tasks| - 1])
  }

  /** What one task output adds to `parts`: its first non-blank attribute, stripped, or nothing. */
  function PartOf(t: TaskOutput): seq<string>
  {
    var p := FirstNonBlank(Attributes(t));
    if p.Some? then [p.value] else []
  }

  /** What `execute` returns for the crew output `out` (lines 62-78). */
  function Normalized(out: CrewOutput): string
  {
    if NonBlankStr(out.raw) then out.raw.s
    else
      var parts := Parts(TasksOf(out));
      if |parts| > 0 then Join(parts, "\n\n") else out.repr
  }

  const DescriptionIntro := "Use the `contextual_rag_retrieval` tool to retrieve relevant passages. "
  const DescriptionOutro := ". Ensure the tool is called exactly with this structure."

  /** The three argument fields of the tool call the description spells out. */
  function QuestionField(question: string): string
  {
    "{\"question\": \"" + question + "\""
  }

  function TopKField(topK: int): string
  {
    "\"top_k\": " + IntToString(topK) + ","
  }

  function ReturnSourcesField(returnSources: int): string
  {
    "\"return_sources\": " + IntToString(returnSources) + "}"
  }

  /** The task description, which spells out the tool call with its three arguments. */
  function TaskDescription(question: string, topK: int, returnSources: int): string
  {
    DescriptionIntro + QuestionField(question) + ", " + TopKField(topK) + " "
    + ReturnSourcesField(returnSources) + DescriptionOutro
  }

  /** The parts of a list of task outputs are the parts of its pieces, in order. */
  lemma {:induction false} PartsAppend(a: seq<TaskOutput>, b: seq<TaskOutput>)
    ensures Parts(a + b) == Parts(a) + Parts(b)
    decreases |b|
  {
    if |b| > 0 {
      var ab, init, last := a + b, b[..|b| - 1], b[|b| - 1];
      assert ab[..|ab| - 1] == a + init;
      assert ab[|ab| - 1] == last;
      assert Parts(ab) == Parts(a + init) + PartOf(last);
      PartsAppend(a, init);
      assert Parts(b) == Parts(init) + PartOf(last);
    } else {
      assert a + b == a;
    }
  }

  /** A single task contributes exactly the first of its four attributes that is a non-blank string, stripped. */
  lemma PartsOfOne(t: TaskOutput)
    ensures FirstNonBlank(Attributes(t)).None? ==> Parts([t]) == []
    ensures FirstNonBlank(Attributes(t)).Some? ==> Parts([t]) == [FirstNonBlank(Attributes(t)).value]
  {
    assert [t][..0] == [];
  }

  /** The shape of `s.strip()` for a non-blank `s`: not empty, no whitespace at either end. */
  predicate Stripped(p: string)
  {
    p != "" && !IsSpace(p[0]) && !IsSpace(p[|p| - 1])
  }

  lemma FirstNonBlankStripped(vals: seq<Value>)
    ensures FirstNonBlank(vals).Some? ==> Stripped(FirstNonBlank(vals).value)
  {
    var i := FirstNonBlankIndex(vals);
    FirstNonBlankIndexIsFirst(vals);
    if i < |vals| {
      StripProperties(vals[i].s);
    }
  }

  /** Every part is the stripped form of a non-blank string. */
  lemma {:induction false} PartsAreStripped(tasks: seq<TaskOutput>)
    ensures forall i :: 0 <= i < |Parts(tasks)| ==> Stripped(Parts(tasks)[i])
    decreases |tasks|
  {
    if |tasks| > 0 {
      PartsAreStripped(tasks[..|tasks| - 1]);
      FirstNonBlankStripped(Attributes(tasks[|tasks| - 1]));
    }
  }

  /**
   * The three outcomes of the normalization: a non-blank string `raw` is
   * returned unchanged (not stripped); otherwise the parts joined by blank
   * lines when there is at least one; otherwise `str(out)`.
   */
  lemma NormalizedCases(out: CrewOutput)
    ensures NonBlankStr(out.raw) ==> Normalized(out) == out.raw.s
    ensures !NonBlankStr(out.raw) && |Parts(TasksOf(out))| > 0 ==> Normalized(out) == Join(Parts(TasksOf(out)), "\n\n")
    ensures !NonBlankStr(out.raw) && |Parts(TasksOf(out))| == 0 ==> Normalized(out) == out.repr
  {
  }

  /** `str(out)` is used only when no task contributes a part, for instance when there are no task outputs. */
  lemma FallbackToRepr(out: CrewOutput)
    requires !NonBlankStr(out.raw)
    requires forall t :: t in TasksOf(out) ==> forall v :: v in Attributes(t) ==> !NonBlankStr(v)
    ensures Normalized(out) == out.repr
  {
    NoParts(TasksOf(out));
  }

  lemma {:induction false} NoParts(tasks: seq<TaskOutput>)
    requires forall t :: t in tasks ==> forall v :: v in Attributes(t) ==> !NonBlankStr(v)
    ensures Parts(tasks) == []
    decreases |tasks|
  {
    if |tasks| > 0 {
      var init := tasks[..|tasks| - 1];
      assert forall t :: t in init ==> t in tasks;
      NoParts(init);
      var vals := Attributes(tasks[|tasks| - 1]);
      FirstNonBlankIndexIsFirst(vals);
      assert tasks[|tasks| - 1] in tasks;
      assert forall i :: 0 <= i < |vals| ==> vals[i] in vals;
    }
  }

  /**
   * The result is never blank unless it is `str(out)`: a non-blank `raw` is
   * returned as is, and a join of parts starts with a non-space character.
   */
  lemma NormalizedNotBlank(out: CrewOutput)
    ensures !IsBlank(Normalized(out)) || Normalized(out) == out.repr
  {
    if NonBlankStr(out.raw) {
      StripProperties(out.raw.s);
    } else {
      var parts := Parts(TasksOf(out));
      if |parts| > 0 {
        PartsAreStripped(TasksOf(out));
        var joined := Join(parts, "\n\n");
        assert joined[0] == parts[0][0];
        assert !IsSpace(joined[0]);
      }
    }
  }

  /** The description embeds the question and both numbers literally, as the tool call's arguments. */
  lemma DescriptionEmbedsArguments(question: string, topK: int, returnSources: int)
    ensures Contains(TaskDescription(question, topK, returnSources), QuestionField(question))
    ensures Contains(TaskDescription(question, topK, returnSources), TopKField(topK))
    ensures Contains(TaskDescription(question, topK, returnSources), ReturnSourcesField(returnSources))
  {
    var q, t, r := QuestionField(question), TopKField(topK), ReturnSourcesField(returnSources);
    var intro, outro := DescriptionIntro, DescriptionOutro;
    ContainsEnd(intro, q);
    ContainsExtend(intro + q, ", ", q);
    ContainsExtend(intro + q + ", ", t, q);
    ContainsExtend(intro + q + ", " + t, " ", q);
    ContainsExtend(intro + q + ", " + t + " ", r, q);
    ContainsExtend(intro + q + ", " + t + " " + r, outro, q);
    ContainsEnd(intro + q + ", ", t);
    ContainsExtend(intro + q + ", " + t, " ", t);
    ContainsExtend(intro + q + ", " + t + " ", r, t);
    ContainsExtend(intro + q + ", " + t + " " + r, outro, t);
    ContainsEnd(intro + q + ", " + t + " ", r);
    ContainsExtend(intro + q + ", " + t + " " + r, outro, r);
  }

  /**
   * The inner loop of lines 68-73: the attributes of one task output in
   * order, stopping at the first non-blank string (the source's `break`),
   * which is stripped.
   */
  method FirstPart(t: TaskOutput) returns (part: seq<string>)
    ensures part == PartOf(t)
  {
    var vals := Attributes(t);
    FirstNonBlankIndexIsFirst(vals);
    part := [];
    var j := 0;
    while j < |vals|
      invariant j <= FirstNonBlankIndex(vals)
    {
      if vals[j].PyStr? && Strip(vals[j].s) != "" {
        StripProperties(vals[j].s);
        assert j == FirstNonBlankIndex(vals);
        return [Strip(vals[j].s)];
      }
      if vals[j].PyStr? {
        StripProperties(vals[j].s);
      }
      j := j + 1;
    }
    assert FirstNonBlankIndex(vals) == |vals|;
  }

  /** The `parts` loop of lines 67-73: one part at most per task output, in order. */
  method CollectParts(tasks: seq<TaskOutput>) returns (parts: seq<string>)
    ensures parts == Parts(tasks)
  {
    parts := [];
    for i := 0 to |tasks|
      invariant parts == Parts(tasks[..i])
    {
      var part := FirstPart(tasks[i]);
      assert tasks[..i + 1][..i] == tasks[..i];
      assert tasks[..i + 1][i] == tasks[i];
      parts := parts + part;
    }
    assert tasks[..|tasks|] == tasks;
  }

  /** The normalization of lines 62-78, with its early returns. */
  method Normalize(out: CrewOutput) returns (text: string)
    ensures text == Normalized(out)
  {
    var raw := out.raw;
    if raw.PyStr? && Strip(raw.s) != "" {
      StripProperties(raw.s);
      return raw.s;
    }
    if raw.PyStr? {
      StripProperties(raw.s);
    }
    var parts := CollectParts(TasksOf(out));
    if |parts| > 0 {
      return Join(parts, "\n\n");
    }
    return out.repr;
  }

  /**
   * `execute(question, top_k=3, return_sources=2)`: runs the crew on the
   * task description and normalizes what it returns.
   */
  method Execute(kickoff: string -> CrewOutput, question: string,
                 topK: int := DefaultTopK, returnSources: int := DefaultReturnSources)
    returns (text: string)
    ensures text == Normalized(kickoff(TaskDescription(question, topK, returnSources)))
  {
    var out := kickoff(TaskDescription(question, topK, returnSources));
    text := Normalize(out);
  }
}
