/**
 * The contextual retrieval tool (agent/retrieval_tool.py). The tool holds an
 * optional query engine and a cap on the number of cited sources. Run asks
 * the engine one question and shapes its response into an "Answer:" line,
 * followed by an optional "Sources:" block of numbered citation lines.
 */
module RetrievalTool {
  import opened Strings
  import opened Py

  const NotInitialized := "Retrieval tool not initialized: no query engine set."
  const DefaultReturnSourcesCap := 3
  const SnippetLength := 160

  /**
   * One retrieved node: its metadata (`None` when the node has none), its score
   * as the citation line renders it, and its content (`None` when
   * `get_content()` yields nothing).
   */
  datatype SourceNode = SourceNode(metadata: Option<Dict>, score: string, content: Option<string>)

  /** The engine's response: its `str()` and its `source_nodes` (`None` when absent or `None`). */
  datatype Response = Response(text: string, sourceNodes: Option<seq<SourceNode>>)

  /** A query engine, known by the response it gives to each question. */
  datatype QueryEngine = QueryEngine(query: string -> Response)

  function Min(a: int, b: int): int
  {
    if a <= b then a else b
  }

  /** `sn.node.metadata or {}`. */
  function MetadataOf(sn: SourceNode): Dict
  {
    if sn.metadata.Some? then sn.metadata.value else []
  }

  /** `sn.node.get_content() or ""`. */
  function ContentOf(sn: SourceNode): string
  {
    if sn.content.Some? then sn.content.value else ""
  }

  /** `meta.get("file_name") or meta.get("file_path") or "doc"`, as the f-string renders it. */
  function DisplayName(meta: Dict): string
  {
    var fileName := GetOr(meta, "file_name", PyNone);
    var filePath := GetOr(meta, "file_path", PyNone);
    if Truthy(fileName) then ToStr(fileName)
    else if Truthy(filePath) then ToStr(filePath)
    else "doc"
  }

  /**
   * The first 160 characters of the node's content with every newline turned
   * into a space: no newline survives, and every other character, and the
   * length up to the limit, is kept.
   */
  function Snippet(sn: SourceNode): (r: string)
    ensures |r| == Min(|ContentOf(sn)|, SnippetLength)
    ensures forall i :: 0 <= i < |r| ==> r[i] != '\n'
    ensures forall i :: 0 <= i < |r| ==> r[i] == ContentOf(sn)[i] || (ContentOf(sn)[i] == '\n' && r[i] == ' ')
  {
    FlattenNewlines(Take(ContentOf(sn), SnippetLength))
  }

  /** The citation line for the `number`-th source: `{i}. {name} | score={score} | “{snippet}…”`. */
  function CitationLine(number: int, sn: SourceNode): string
  {
    IntToString(number) + ". " + DisplayName(MetadataOf(sn)) + " | score=" + sn.score
    + " | \U{201C}" + Snippet(sn) + "\U{2026}\U{201D}"
  }

  /**
   * Python's `s[:k]`, as the source slices the source nodes: a negative `k`
   * drops the last `-k` elements instead of taking none.
   */
  function PySliceTo<T>(s: seq<T>, k: int): seq<T>
  {
    if k >= 0 then (if k <= |s| then s[..k] else s)
    else if |s| + k > 0 then s[..|s| + k]
    else []
  }

  /**
   * The nodes the tool cites: the first `k` of them, none when `k` is not
   * positive. It is the longest prefix of `s` no longer than `k`.
   */
  function CappedPrefix<T>(s: seq<T>, k: int): (r: seq<T>)
    ensures r <= s
    ensures |r| <= k || r == []
    ensures |r| == |s| || |r| == k || (k <= 0 && r == [])
  {
    if k <= 0 then [] else if k <= |s| then s[..k] else s
  }

  /** The numbered citation lines for the first `k` source nodes. */
  function SourceLines(nodes: seq<SourceNode>, k: int): seq<string>
  {
    var taken := CappedPrefix(nodes, k);
    seq(|taken|, i requires 0 <= i < |taken| => CitationLine(i + 1, taken[i]))
  }

  /** What `_run` returns once the engine has answered, with source budget `k`. */
  function Shape(resp: Response, k: int): string
  {
    var head := "Answer: " + resp.text;
    var srcs := if resp.sourceNodes.Some? && |resp.sourceNodes.value| > 0
                then SourceLines(resp.sourceNodes.value, k) else [];
    var lines := if |srcs| > 0 then [head, "Sources:\n" + Join(srcs, "\n")] else [head];
    Join(lines, "\n")
  }

  /** What `_run(question, top_k, return_sources)` returns for a given engine and cap. */
  function Answer(engine: Option<QueryEngine>, cap: int, question: string, returnSources: int): string
  {
    match engine
    case None => NotInitialized
    case Some(qe) => Shape(qe.query(question), Min(returnSources, cap))
  }

  /** The answer always opens with "Answer: " and the response text. */
  lemma ShapeStartsWithAnswer(resp: Response, k: int)
    ensures "Answer: " + resp.text <= Shape(resp, k)
  {
  }

  /**
   * The "Sources:" block is absent exactly when there are no source nodes or
   * the budget is not positive; it is never emitted empty.
   */
  lemma SourcesBlockAbsentIff(resp: Response, k: int)
    ensures Shape(resp, k) == "Answer: " + resp.text
        <==> resp.sourceNodes.None? || |resp.sourceNodes.value| == 0 || k <= 0
  {
    if resp.sourceNodes.Some? && |resp.sourceNodes.value| > 0 && k > 0 {
      assert |SourceLines(resp.sourceNodes.value, k)| > 0;
    }
  }

  /**
   * With source nodes and a positive budget, the answer line is followed by
   * "\nSources:\n" and the citation lines of the first min(k, n) nodes, one
   * per line, numbered from 1 in retrieval order.
   */
  lemma ShapeWithSources(resp: Response, k: int)
    requires resp.sourceNodes.Some? && |resp.sourceNodes.value| > 0 && k > 0
    ensures var lines := SourceLines(resp.sourceNodes.value, k);
      && |lines| == Min(k, |resp.sourceNodes.value|)
      && (forall i :: 0 <= i < |lines| ==> lines[i] == CitationLine(i + 1, resp.sourceNodes.value[i]))
      && Shape(resp, k) == "Answer: " + resp.text + "\nSources:\n" + Join(lines, "\n")
  {
    var nodes := resp.sourceNodes.value;
    SourceLinesShape(nodes, k);
    var lines := SourceLines(nodes, k);
    var head, block := "Answer: " + resp.text, "Sources:\n" + Join(lines, "\n");
    assert Shape(resp, k) == Join([head, block], "\n");
    assert [head, block][1..] == [block];
    assert Join([head, block], "\n") == head + "\n" + block;
  }

  /** The citation lines for budget `k > 0`: min(k, n) of them, numbered from 1 in node order. */
  lemma SourceLinesShape(nodes: seq<SourceNode>, k: int)
    requires k > 0
    ensures |SourceLines(nodes, k)| == Min(k, |nodes|)
    ensures forall i :: 0 <= i < |SourceLines(nodes, k)| ==> SourceLines(nodes, k)[i] == CitationLine(i + 1, nodes[i])
  {
    var taken := CappedPrefix(nodes, k);
    assert forall i :: 0 <= i < |taken| ==> taken[i] == nodes[i];
  }

  /**
   * The tool cites no more sources than the caller asked for, no more than the
   * cap allows and no more than were retrieved; when enough were retrieved and
   * both bounds are non-negative it cites exactly min(return_sources, cap).
   */
  lemma SourceCountBounded(nodes: seq<SourceNode>, returnSources: int, cap: int)
    ensures var n := |SourceLines(nodes, Min(returnSources, cap))|;
      && n <= |nodes|
      && (n <= returnSources || n == 0)
      && (n <= cap || n == 0)
      && (0 <= Min(returnSources, cap) <= |nodes| ==> n == Min(returnSources, cap))
  {
  }

  /**
   * The display name is `file_name` when truthy, else `file_path` when truthy,
   * else "doc", whether the keys are missing or hold a falsy value; a node
   * without metadata is cited as "doc".
   */
  lemma DisplayNameFallback(meta: Dict)
    ensures Truthy(GetOr(meta, "file_name", PyNone)) ==> DisplayName(meta) == ToStr(GetOr(meta, "file_name", PyNone))
    ensures !Truthy(GetOr(meta, "file_name", PyNone)) && Truthy(GetOr(meta, "file_path", PyNone))
        ==> DisplayName(meta) == ToStr(GetOr(meta, "file_path", PyNone))
    ensures !Truthy(GetOr(meta, "file_name", PyNone)) && !Truthy(GetOr(meta, "file_path", PyNone)) ==> DisplayName(meta) == "doc"
    ensures Get(meta, "file_name").None? && Get(meta, "file_path").None? ==> DisplayName(meta) == "doc"
    ensures DisplayName(MetadataOf(SourceNode(None, "None", None))) == "doc"
  {
  }

  /**
   * The slice as written: with a negative request `[:k]` keeps all but the
   * last `-k` nodes, so a caller passing `return_sources = -1` is cited
   * `n - 1` sources, more than the cap whenever `n - 1 > cap`.
   */
  lemma NegativeRequestBypassesCap(nodes: seq<SourceNode>, returnSources: int, cap: int)
    requires returnSources < 0 <= cap
    requires |nodes| + returnSources > cap
    ensures |PySliceTo(nodes, Min(returnSources, cap))| == |nodes| + returnSources > cap
  {
  }

  /** For a non-negative budget the tool's slice is exactly Python's `[:k]`. */
  lemma CappedPrefixAgrees<T>(s: seq<T>, k: int)
    requires k >= 0
    ensures CappedPrefix(s, k) == PySliceTo(s, k)
  {
  }

  /**
   * Lines 39-52 of `_run`: the answer line, then the citation lines built one
   * by one in a loop over the first `k` source nodes.
   */
  method FormatResponse(resp: Response, k: int) returns (text: string)
    ensures text == Shape(resp, k)
  {
    var lines := ["Answer: " + resp.text];
    if resp.sourceNodes.Some? && |resp.sourceNodes.value| > 0 {
      var taken := CappedPrefix(resp.sourceNodes.value, k);
      var srcs: seq<string> := [];
      var i := 0;
      while i < |taken|
        invariant 0 <= i <= |taken|
        invariant |srcs| == i
        invariant forall j :: 0 <= j < i ==> srcs[j] == CitationLine(j + 1, taken[j])
      {
        srcs := srcs + [CitationLine(i + 1, taken[i])];
        i := i + 1;
      }
      assert srcs == SourceLines(resp.sourceNodes.value, k);
      if |srcs| > 0 {
        lines := lines + ["Sources:\n" + Join(srcs, "\n")];
      }
    }
    text := Join(lines, "\n");
  }

  /** `ContextualRetrievalTool`: an optional query engine and a source cap. */
  class ContextualRetrievalTool {
    var queryEngine: Option<QueryEngine>
    var returnSourcesCap: int
    /** The questions sent to the engine so far, in order. */
    ghost var queries: seq<string>

    /** A fresh tool has no engine and the default cap of 3. */
    constructor ()
      ensures queryEngine == None && returnSourcesCap == DefaultReturnSourcesCap
      ensures queries == []
    {
      queryEngine := None;
      returnSourcesCap := DefaultReturnSourcesCap;
      queries := [];
    }

    /** `set_query_engine(qe, return_sources_cap=3)` replaces both the engine and the cap. */
    method SetQueryEngine(qe: Option<QueryEngine>, cap: int := DefaultReturnSourcesCap)
      modifies this`queryEngine, this`returnSourcesCap
      ensures queryEngine == qe && returnSourcesCap == cap
    {
      queryEngine := qe;
      returnSourcesCap := cap;
    }

    /**
     * `_run(question, top_k, return_sources)`. Without an engine it returns the
     * fixed diagnostic and asks nothing; otherwise it asks the engine the
     * question once. `top_k` has no effect on the answer.
     */
    method Run(question: string, topK: int := 20, returnSources: int := 3) returns (answer: string)
      modifies this`queries
      ensures answer == Answer(queryEngine, returnSourcesCap, question, returnSources)
      ensures queryEngine.None? ==> answer == NotInitialized && queries == old(queries)
      ensures queryEngine.Some? ==> queries == old(queries) + [question]
    {
      if queryEngine.None? {
        return NotInitialized;
      }
      var resp := queryEngine.value.query(question);
      queries := queries + [question];
      var k := Min(returnSources, returnSourcesCap);
      answer := FormatResponse(resp, k);
    }
  }
}
