/**
 * Contextual ingestion (scripts/ingest.py). Each node produced by the splitter
 * keeps its original text under `orig_text`, records the document's name under
 * `doc_name`, and has its text replaced by a four-line header (document title,
 * section path, intent, chunk marker) followed by the original text. A
 * document whose name already occurs in the store is skipped; the test is a
 * SQL `LIKE '%name%'` over the text of each stored row's metadata.
 */
module Ingest {
  import opened Strings
  import opened Py

  const DefaultDocTitle := "Abu Dhabi Procurement Standards"
  const Intent := "Assist a procurement practitioner answering policy/process questions"

  /** Splitter settings (rag/settings.py); the splitting itself is not part of this model. */
  const ChunkSize := 512
  const ChunkOverlap := 50

  // ---------------------------------------------------------------------------
  // make_contextual_text
  // ---------------------------------------------------------------------------

  /** `"header" in k.lower() or "section" in k.lower()`. */
  predicate MentionsSection(key: string)
  {
    Contains(Lower(key), "header") || Contains(Lower(key), "section")
  }

  /** `[str(v) for k, v in metadata.items() if ...]`, in insertion order. */
  function SectionValues(meta: Dict): seq<string>
    decreases |meta|
  {
    if |meta| == 0 then []
    else (if MentionsSection(meta[0].0) then [ToStr(meta[0].1)] else []) + SectionValues(meta[1..])
  }

  /**
   * The section path: the " > "-join of the section values, or, when that join
   * is empty, `metadata.get("file_name", "Unknown Section")`.
   */
  function SectionPath(meta: Dict): string
  {
    var joined := Join(SectionValues(meta), " > ");
    if joined != "" then joined else ToStr(GetOr(meta, "file_name", PyStr("Unknown Section")))
  }

  const TitleTag := "[DOC_TITLE] "
  const SectionTag := "[SECTION_PATH] "
  const IntentLine := "[INTENT] " + Intent + "\n"
  const ChunkTag := "[CHUNK]\n"

  /** The four header lines: title, section path, intent, and the `[CHUNK]` marker. */
  function Header(title: string, sectionPath: string): string
  {
    TitleLine(title) + (SectionTag + sectionPath + "\n" + IntentLine + ChunkTag)
  }

  function TitleLine(title: string): string
  {
    TitleTag + title + "\n"
  }

  /** `make_contextual_text(node, doc_title)` for a node with metadata `meta` and text `text`. */
  function ContextualText(meta: Dict, text: string, title: string := DefaultDocTitle): string
  {
    Header(title, SectionPath(meta)) + text
  }

  /** The contextual text opens with the title line and ends with the unchanged text. */
  lemma ContextualTextShape(meta: Dict, text: string, title: string)
    ensures TitleLine(title) <= ContextualText(meta, text, title)
    ensures var r := ContextualText(meta, text, title);
      |r| >= |text| && r[|r| - |text|..] == text
  {
    var h := Header(title, SectionPath(meta));
    assert TitleLine(title) <= h;
    assert h <= h + text;
  }

  /** Keys that mention neither "header" nor "section" contribute nothing to the section values. */
  lemma {:induction false} NoSectionKeys(meta: Dict)
    requires forall i :: 0 <= i < |meta| ==> !MentionsSection(meta[i].0)
    ensures SectionValues(meta) == []
    decreases |meta|
  {
    if |meta| > 0 {
      NoSectionKeys(meta[1..]);
    }
  }

  /** Every value stored under a section key appears among the section values. */
  lemma {:induction false} SectionValueListed(meta: Dict, i: nat)
    requires i < |meta| && MentionsSection(meta[i].0)
    ensures exists j :: 0 <= j < |SectionValues(meta)| && SectionValues(meta)[j] == ToStr(meta[i].1)
    decreases |meta|
  {
    if i > 0 {
      SectionValueListed(meta[1..], i - 1);
      var rest := SectionValues(meta[1..]);
      var j :| 0 <= j < |rest| && rest[j] == ToStr(meta[1..][i - 1].1);
      var head := if MentionsSection(meta[0].0) then [ToStr(meta[0].1)] else [];
      assert SectionValues(meta)[|head| + j] == rest[j];
    } else {
      assert SectionValues(meta)[0] == ToStr(meta[0].1);
    }
  }

  /**
   * With no section key, the section path is the `file_name` value when that
   * key exists (whatever its value), else "Unknown Section".
   */
  lemma SectionPathWithoutSections(meta: Dict)
    requires forall i :: 0 <= i < |meta| ==> !MentionsSection(meta[i].0)
    ensures Get(meta, "file_name").Some? ==> SectionPath(meta) == ToStr(Get(meta, "file_name").value)
    ensures Get(meta, "file_name").None? ==> SectionPath(meta) == "Unknown Section"
  {
    NoSectionKeys(meta);
    SectionPathFallback(meta);
  }

  /**
   * The fallback applies whenever the " > "-join is empty: exactly when there
   * is no section value, or one whose `str()` is empty. The path is then the
   * `file_name` value when that key exists (whatever its value), else
   * "Unknown Section".
   */
  lemma SectionPathFallback(meta: Dict)
    requires Join(SectionValues(meta), " > ") == ""
    ensures SectionValues(meta) == [] || SectionValues(meta) == [""]
    ensures Get(meta, "file_name").Some? ==> SectionPath(meta) == ToStr(Get(meta, "file_name").value)
    ensures Get(meta, "file_name").None? ==> SectionPath(meta) == "Unknown Section"
  {
    JoinEmpty(SectionValues(meta), " > ");
  }

  /**
   * When some section key holds a value with a non-empty `str()`, the section
   * path is the join of the section values, and that value occurs in it.
   */
  lemma SectionPathFromSections(meta: Dict, i: nat)
    requires i < |meta| && MentionsSection(meta[i].0) && ToStr(meta[i].1) != ""
    ensures SectionPath(meta) == Join(SectionValues(meta), " > ")
    ensures Contains(SectionPath(meta), ToStr(meta[i].1))
  {
    var values := SectionValues(meta);
    SectionValueListed(meta, i);
    var j :| 0 <= j < |values| && values[j] == ToStr(meta[i].1);
    assert Contains(values[j], values[j]);
    JoinContains(values, " > ", j, values[j]);
    OccurrenceOf(Join(values, " > "), values[j]);
  }

  /** Assigning a key that is not a section key leaves the section values as they were. */
  lemma {:induction false} SectionValuesIgnoreKey(meta: Dict, k: string, v: Value)
    requires !MentionsSection(k)
    ensures SectionValues(Set(meta, k, v)) == SectionValues(meta)
    decreases |meta|
  {
    var r := Set(meta, k, v);
    if |meta| == 0 {
      assert r == [(k, v)] && r[1..] == [];
    } else if meta[0].0 != k {
      SectionValuesIgnoreKey(meta[1..], k, v);
      assert r[0] == meta[0] && r[1..] == Set(meta[1..], k, v);
    } else {
      assert r[0] == (k, v) && r[1..] == meta[1..];
    }
  }

  /** Nor does it change the section path, unless the key is `file_name`. */
  lemma SectionPathIgnoresKey(meta: Dict, k: string, v: Value)
    requires !MentionsSection(k) && k != "file_name"
    ensures SectionPath(Set(meta, k, v)) == SectionPath(meta)
  {
    SectionValuesIgnoreKey(meta, k, v);
    SetGet(meta, k, v);
    assert Get(Set(meta, k, v), "file_name") == Get(meta, "file_name");
  }

  /** The two bookkeeping keys the ingestion adds are not section keys. */
  lemma BookkeepingKeysAreNotSections()
    ensures !MentionsSection("orig_text") && !MentionsSection("doc_name")
  {
    var o, d := Lower("orig_text"), Lower("doc_name");
    assert forall i :: 0 <= i < |o| ==> o[i] != 'h' && o[i] != 's';
    assert forall i :: 0 <= i < |d| ==> d[i] != 'h' && d[i] != 's';
    NotContainsWithoutFirstChar(o, "header");
    NotContainsWithoutFirstChar(o, "section");
    NotContainsWithoutFirstChar(d, "header");
    NotContainsWithoutFirstChar(d, "section");
  }

  // ---------------------------------------------------------------------------
  // Nodes and their in-place rewrite
  // ---------------------------------------------------------------------------

  /** A splitter output node as a value: its text and its metadata. */
  datatype Chunk = Chunk(text: string, metadata: Dict)

  /** A llama_index text node, whose text and metadata the ingestion rewrites in place. */
  class Node {
    var text: string
    var metadata: Dict

    constructor (c: Chunk)
      ensures text == c.text && metadata == c.metadata
    {
      text := c.text;
      metadata := c.metadata;
    }

    function Value(): Chunk
      reads this
    {
      Chunk(text, metadata)
    }
  }

  /** What the loop body of `ingest_document` makes of one node. */
  function Rewritten(c: Chunk, docName: string): Chunk
  {
    var meta := Tagged(c, docName);
    Chunk(ContextualText(meta, c.text, docName), meta)
  }

  /** The node's metadata once `orig_text` and then `doc_name` are assigned. */
  function Tagged(c: Chunk, docName: string): Dict
  {
    Set(Set(c.metadata, "orig_text", PyStr(c.text)), "doc_name", PyStr(docName))
  }

  /**
   * The rewrite keeps the original text under `orig_text` and the document
   * name under `doc_name`, leaves every other key alone, and sets the text to
   * `make_contextual_text` of the node as it was, titled with the document
   * name; the original text is the tail of the new text, so it can be read
   * back from either place.
   */
  lemma RewriteKeepsOriginal(c: Chunk, docName: string)
    ensures var r := Rewritten(c, docName);
      && Get(r.metadata, "orig_text") == Some(PyStr(c.text))
      && Get(r.metadata, "doc_name") == Some(PyStr(docName))
      && (forall k :: k != "orig_text" && k != "doc_name" ==> Get(r.metadata, k) == Get(c.metadata, k))
      && r.text == ContextualText(c.metadata, c.text, docName)
      && r.text == Header(docName, SectionPath(c.metadata)) + c.text
      && r.text[|r.text| - |c.text|..] == c.text
  {
    BookkeepingKeysAreNotSections();
    var m1 := Set(c.metadata, "orig_text", PyStr(c.text));
    var m2 := Set(m1, "doc_name", PyStr(docName));
    SetGet(c.metadata, "orig_text", PyStr(c.text));
    SetGet(m1, "doc_name", PyStr(docName));
    assert Get(m2, "orig_text") == Get(m1, "orig_text");
    SectionPathIgnoresKey(c.metadata, "orig_text", PyStr(c.text));
    SectionPathIgnoresKey(m1, "doc_name", PyStr(docName));
    assert SectionPath(m2) == SectionPath(c.metadata);
    assert Rewritten(c, docName) == Chunk(ContextualText(m2, c.text, docName), m2);
    ContextualTextShape(c.metadata, c.text, docName);
  }

  /** The tagged metadata records the document name under `doc_name`. */
  lemma TaggedRecordsName(c: Chunk, docName: string)
    ensures Get(Tagged(c, docName), "doc_name") == Some(PyStr(docName))
  {
    SetGet(Set(c.metadata, "orig_text", PyStr(c.text)), "doc_name", PyStr(docName));
  }

  /** The loop body of `ingest_document` for one node (lines 62-64). */
  method RewriteNode(node: Node, docName: string)
    modifies node
    ensures node.Value() == Rewritten(old(node.Value()), docName)
  {
    node.metadata := Set(node.metadata, "orig_text", PyStr(node.text));
    node.metadata := Set(node.metadata, "doc_name", PyStr(docName));
    node.text := ContextualText(node.metadata, node.text, docName);
  }

  /**
   * Lines 61-64 of `ingest_document`: every node, in order, records its text
   * and the document name in its metadata and then gets its contextual text.
   */
  method Contextualize(nodes: seq<Node>, docName: string)
    requires forall i, j :: 0 <= i < |nodes| && 0 <= j < |nodes| && i != j ==> nodes[i] != nodes[j]
    modifies nodes
    ensures forall i :: 0 <= i < |nodes| ==> nodes[i].Value() == Rewritten(old(nodes[i].Value()), docName)
  {
    ghost var start := Values(nodes);
    for i := 0 to |nodes|
      invariant forall j :: 0 <= j < i ==> nodes[j].Value() == Rewritten(start[j], docName)
      invariant forall j :: i <= j < |nodes| ==> nodes[j].Value() == start[j]
    {
      RewriteNode(nodes[i], docName);
    }
  }

  /** The chunks the nodes hold, in order. */
  ghost function Values(nodes: seq<Node>): (r: seq<Chunk>)
    reads nodes
    ensures |r| == |nodes| && forall j :: 0 <= j < |nodes| ==> r[j] == nodes[j].Value()
  {
    seq(|nodes|, j reads nodes requires 0 <= j < |nodes| => nodes[j].Value())
  }

  /** The metadata the nodes hold, in order: the rows the store writes for them. */
  ghost function Metadata(nodes: seq<Node>): (r: seq<Dict>)
    reads nodes
    ensures |r| == |nodes| && forall j :: 0 <= j < |nodes| ==> r[j] == nodes[j].metadata
  {
    seq(|nodes|, j reads nodes requires 0 <= j < |nodes| => nodes[j].metadata)
  }

  /** The splitter's output as fresh, distinct node objects, one per chunk. */
  method MakeNodes(chunks: seq<Chunk>) returns (nodes: seq<Node>)
    ensures |nodes| == |chunks|
    ensures forall i :: 0 <= i < |nodes| ==> fresh(nodes[i]) && nodes[i].Value() == chunks[i]
    ensures forall i, j :: 0 <= i < |nodes| && 0 <= j < |nodes| && i != j ==> nodes[i] != nodes[j]
  {
    nodes := [];
    for i := 0 to |chunks|
      invariant |nodes| == i
      invariant forall j :: 0 <= j < i ==> fresh(nodes[j]) && nodes[j].Value() == chunks[j]
      invariant forall j, l :: 0 <= j < i && 0 <= l < i && j != l ==> nodes[j] != nodes[l]
    {
      var node := new Node(chunks[i]);
      nodes := nodes + [node];
    }
  }

  // ---------------------------------------------------------------------------
  // The store and the duplicate test
  // ---------------------------------------------------------------------------

  /**
   * The text of a metadata column, standing in for the JSON the vector store
   * writes: every key with the `str()` of its value.
   */
  function Serialize(meta: Dict): string
  {
    "{" + Join(seq(|meta|, i requires 0 <= i < |meta| => "\"" + meta[i].0 + "\": \"" + ToStr(meta[i].1) + "\""), ", ") + "}"
  }

  /** The `str()` of every stored value occurs in the serialized metadata. */
  lemma SerializedContainsValue(meta: Dict, k: string, v: Value)
    requires Get(meta, k) == Some(v)
    ensures Contains(Serialize(meta), ToStr(v))
  {
    GetFound(meta, k, v);
    var i :| 0 <= i < |meta| && meta[i] == (k, v);
    var items := seq(|meta|, i requires 0 <= i < |meta| => "\"" + meta[i].0 + "\": \"" + ToStr(meta[i].1) + "\"");
    assert Contains(ToStr(v), ToStr(v));
    ContainsInfix("\"" + k + "\": \"", ToStr(v), "\"", ToStr(v));
    assert items[i] == "\"" + k + "\": \"" + ToStr(v) + "\"";
    JoinContains(items, ", ", i, ToStr(v));
    ContainsInfix("{", Join(items, ", "), "}", ToStr(v));
  }

  /**
   * PostgreSQL's `s LIKE p`: `%` matches any run of characters, `_` any one
   * character, and a backslash makes the next pattern character literal.
   * (PostgreSQL rejects a pattern that ends in a lone backslash; the patterns
   * built by `LikePattern` never do, since they end in `%`.)
   */
  predicate Like(s: string, p: string)
    decreases |s| + |p|
  {
    if |p| == 0 then |s| == 0
    else if p[0] == '%' then Like(s, p[1..]) || (|s| > 0 && Like(s[1..], p))
    else if p[0] == '_' then |s| > 0 && Like(s[1..], p[1..])
    else if p[0] == '\\' && |p| > 1 then |s| > 0 && s[0] == p[1] && Like(s[1..], p[2..])
    else |s| > 0 && s[0] == p[0] && Like(s[1..], p[1..])
  }

  /** The pattern `f'%{doc_name}%'`; the name is not escaped. */
  function LikePattern(docName: string): string
  {
    "%" + docName + "%"
  }

  /** The text of a row's metadata matches `'%doc_name%'`. */
  predicate RowMatches(row: Dict, docName: string)
  {
    Like(Serialize(row), LikePattern(docName))
  }

  /**
   * `is_document_indexed(doc_name)`: some stored row matches. Stated row by
   * row from the end; `IsIndexedIff` gives the "some row" reading.
   */
  predicate IsIndexed(rows: seq<Dict>, docName: string)
    decreases |rows|
  {
    |rows| > 0 && (IsIndexed(rows[..|rows| - 1], docName) || RowMatches(rows[|rows| - 1], docName))
  }

  /** A name is indexed exactly when some row's metadata text matches its pattern. */
  lemma {:induction false} IsIndexedIff(rows: seq<Dict>, docName: string)
    ensures IsIndexed(rows, docName) <==> exists i :: 0 <= i < |rows| && RowMatches(rows[i], docName)
    decreases |rows|
  {
    if |rows| > 0 {
      var init := rows[..|rows| - 1];
      IsIndexedIff(init, docName);
      assert forall i :: 0 <= i < |init| ==> init[i] == rows[i];
      if exists i :: 0 <= i < |rows| && RowMatches(rows[i], docName) {
        var i :| 0 <= i < |rows| && RowMatches(rows[i], docName);
        if i < |init| {
          assert RowMatches(init[i], docName);
        }
      }
    }
  }

  /**
   * A name the stored JSON text holds as it is: printable ASCII without `"`
   * or a backslash, which JSON with its default ASCII-only output escapes.
   */
  predicate NoEscapes(name: string)
  {
    NoBackslash(name) && forall i :: 0 <= i < |name| ==> ' ' <= name[i] <= '~' && name[i] != '"'
  }

  /** A name in which LIKE sees no escape: every character stands for itself or is a wildcard. */
  predicate NoBackslash(name: string)
  {
    forall i :: 0 <= i < |name| ==> name[i] != '\\'
  }

  /**
   * `t` matches `name` followed by `%` when `t` starts with a window that agrees
   * with `name` except where `name` holds a wildcard.
   */
  predicate WindowMatches(t: string, name: string)
  {
    |t| >= |name| && forall i :: 0 <= i < |name| ==> name[i] == '_' || name[i] == '%' || t[i] == name[i]
  }

  lemma {:induction false} LikeAnyTail(s: string)
    ensures Like(s, "%")
    decreases |s|
  {
    if |s| > 0 {
      LikeAnyTail(s[1..]);
    }
  }

  lemma {:induction false} LikeWindow(t: string, name: string)
    requires NoBackslash(name) && WindowMatches(t, name)
    ensures Like(t, name + "%")
    decreases |name|
  {
    if |name| == 0 {
      assert name + "%" == "%";
      LikeAnyTail(t);
    } else {
      var p := name + "%";
      assert p[1..] == name[1..] + "%";
      LikeWindow(t[1..], name[1..]);
      if name[0] == '%' {
        assert Like(t[1..], p[1..]);
        assert Like(t[1..], p);
      }
    }
  }

  lemma {:induction false} LikeAfterSkip(s: string, i: nat, q: string)
    requires i <= |s| && Like(s[i..], q)
    ensures Like(s, "%" + q)
    decreases i
  {
    assert ("%" + q)[1..] == q;
    if i == 0 {
      assert s[0..] == s;
    } else {
      assert s[1..][i - 1..] == s[i..];
      LikeAfterSkip(s[1..], i - 1, q);
    }
  }

  /** A row matches `'%name%'` wherever a window of it matches the name, wildcards and all. */
  lemma LikeAt(s: string, i: nat, name: string)
    requires i <= |s| && NoBackslash(name) && WindowMatches(s[i..], name)
    ensures Like(s, LikePattern(name))
  {
    LikeWindow(s[i..], name);
    LikeAfterSkip(s, i, name + "%");
    assert "%" + (name + "%") == LikePattern(name);
  }

  /** A row that contains the name (free of backslashes) matches `'%name%'`. */
  lemma LikeWhenContained(s: string, name: string)
    requires NoBackslash(name) && Contains(s, name)
    ensures Like(s, LikePattern(name))
  {
    OccurrenceOf(s, name);
    var i :| 0 <= i <= |s| && name <= s[i..];
    LikeAt(s, i, name);
  }

  /** The vector store, seen as the metadata of its rows in insertion order. */
  class VectorStore {
    var rows: seq<Dict>

    constructor (rows: seq<Dict>)
      ensures this.rows == rows
    {
      this.rows := rows;
    }

    /** Building the index over `nodes` writes one row per node, after the existing rows. */
    method Persist(nodes: seq<Node>)
      modifies this
      ensures rows == old(rows) + Metadata(nodes)
    {
      for i := 0 to |nodes|
        invariant rows == old(rows) + Metadata(nodes[..i])
      {
        assert Metadata(nodes[..i + 1]) == Metadata(nodes[..i]) + [nodes[i].metadata];
        rows := rows + [nodes[i].metadata];
      }
      assert nodes[..|nodes|] == nodes;
    }
  }

  /**
   * `is_document_indexed(doc_name)`: counts the rows that match
   * `'%doc_name%'` and reports whether the count is positive.
   */
  method IsDocumentIndexed(store: VectorStore, docName: string) returns (indexed: bool)
    ensures indexed <==> IsIndexed(store.rows, docName)
  {
    var pattern := LikePattern(docName);
    var count := 0;
    for i := 0 to |store.rows|
      invariant count <= i
      invariant (count > 0) == IsIndexed(store.rows[..i], docName)
    {
      assert store.rows[..i + 1][..i] == store.rows[..i];
      if Like(Serialize(store.rows[i]), pattern) {
        count := count + 1;
      }
    }
    assert store.rows[..|store.rows|] == store.rows;
    indexed := count > 0;
  }

  // ---------------------------------------------------------------------------
  // ingest_document and ingest_all_documents
  // ---------------------------------------------------------------------------

  /** Where the last component of `path` starts: just after its last '/', or 0 when it has none. */
  function NameStart(path: string): (k: nat)
    ensures k <= |path|
    ensures forall i :: k <= i < |path| ==> path[i] != '/'
    ensures k > 0 ==> path[k - 1] == '/'
    decreases |path|
  {
    if |path| == 0 then 0
    else if path[|path| - 1] == '/' then |path|
    else NameStart(path[..|path| - 1])
  }

  /** `os.path.basename(path)`: the longest suffix without '/'. */
  function Basename(path: string): string
  {
    path[NameStart(path)..]
  }

  /** `os.path.join(dir, name)` for a name taken from a directory listing. */
  function PathJoin(dir: string, name: string): string
  {
    if dir == "" || dir[|dir| - 1] == '/' then dir + name else dir + "/" + name
  }

  /** The basename of a path that ends in `name` right after a '/' (or nothing) is `name`. */
  lemma BasenameAfterSlash(prefix: string, name: string)
    requires prefix == "" || prefix[|prefix| - 1] == '/'
    requires forall i :: 0 <= i < |name| ==> name[i] != '/'
    ensures Basename(prefix + name) == name
  {
    var path := prefix + name;
    if prefix != "" {
      assert path[|prefix| - 1] == '/';
    }
    assert forall i :: |prefix| <= i < |path| ==> path[i] == name[i - |prefix|];
    assert NameStart(path) == |prefix|;
  }

  /** The basename of a joined path is the listed name. */
  lemma BasenameOfJoin(dir: string, name: string)
    requires forall i :: 0 <= i < |name| ==> name[i] != '/'
    ensures Basename(PathJoin(dir, name)) == name
  {
    if dir == "" || dir[|dir| - 1] == '/' {
      BasenameAfterSlash(dir, name);
    } else {
      BasenameAfterSlash(dir + "/", name);
      assert dir + "/" + name == PathJoin(dir, name);
    }
  }

  /** The rows the index writes for the rewritten nodes: their metadata. */
  function RowsFor(chunks: seq<Chunk>, docName: string): seq<Dict>
  {
    seq(|chunks|, i requires 0 <= i < |chunks| => Tagged(chunks[i], docName))
  }

  /**
   * The store after `ingest_document(path)`, where the loader yields
   * `documents` and the splitter `chunks`.
   */
  function IngestRows(rows: seq<Dict>, path: string, documents: seq<string>, chunks: seq<Chunk>): seq<Dict>
  {
    var docName := Basename(path);
    if IsIndexed(rows, docName) || |documents| == 0 then rows
    else rows + RowsFor(chunks, docName)
  }

  /**
   * Lines 59-68 of `ingest_document`: the splitter's nodes, rewritten in place
   * and persisted after the existing rows.
   */
  method WriteDocument(store: VectorStore, docName: string, chunks: seq<Chunk>) returns (nodes: seq<Node>)
    modifies store
    ensures store.rows == old(store.rows) + RowsFor(chunks, docName)
    ensures |nodes| == |chunks|
    ensures forall i :: 0 <= i < |nodes| ==> fresh(nodes[i]) && nodes[i].Value() == Rewritten(chunks[i], docName)
  {
    nodes := MakeNodes(chunks);
    Contextualize(nodes, docName);
    assert Metadata(nodes) == RowsFor(chunks, docName);
    store.Persist(nodes);
  }

  /**
   * `ingest_document(path)`. Skips a document whose name is already indexed and
   * one the loader finds empty; otherwise rewrites the splitter's nodes in
   * place and persists them.
   */
  method IngestDocument(store: VectorStore, path: string, documents: seq<string>, chunks: seq<Chunk>)
    returns (nodes: seq<Node>)
    modifies store
    ensures store.rows == IngestRows(old(store.rows), path, documents, chunks)
    ensures IsIndexed(old(store.rows), Basename(path)) || |documents| == 0 ==> nodes == []
    ensures !IsIndexed(old(store.rows), Basename(path)) && |documents| > 0 ==> |nodes| == |chunks|
    ensures forall i :: 0 <= i < |nodes| ==> fresh(nodes[i]) && nodes[i].Value() == Rewritten(chunks[i], Basename(path))
  {
    var docName := Basename(path);
    var indexed := IsDocumentIndexed(store, docName);
    if indexed {
      return [];
    }
    if |documents| == 0 {
      return [];
    }
    nodes := WriteDocument(store, docName, chunks);
  }

  /** An entry of the documents directory: its name, whether it is a regular file, and what loading and splitting it yield. */
  datatype DirEntry = DirEntry(name: string, isFile: bool, documents: seq<string>, chunks: seq<Chunk>)

  /** The regular files of a listing, in listing order. */
  function Files(entries: seq<DirEntry>): (files: seq<DirEntry>)
    ensures forall f :: f in files ==> f in entries && f.isFile
    ensures forall e :: e in entries && e.isFile ==> e in files
    decreases |entries|
  {
    if |entries| == 0 then []
    else
      var last := entries[|entries| - 1];
      var init := entries[..|entries| - 1];
      assert forall e :: e in entries ==> e in init || e == last;
      Files(init) + (if last.isFile then [last] else [])
  }

  /** The store after ingesting `files` of directory `dir`, one after the other. */
  function IngestAllRows(rows: seq<Dict>, dir: string, files: seq<DirEntry>): seq<Dict>
    decreases |files|
  {
    if |files| == 0 then rows
    else
      var last := files[|files| - 1];
      IngestRows(IngestAllRows(rows, dir, files[..|files| - 1]), PathJoin(dir, last.name), last.documents, last.chunks)
  }

  /** The regular files of the listing, gathered in one pass. */
  method ListFiles(entries: seq<DirEntry>) returns (files: seq<DirEntry>)
    ensures files == Files(entries)
  {
    files := [];
    for i := 0 to |entries|
      invariant files == Files(entries[..i])
    {
      assert entries[..i + 1][..i] == entries[..i];
      if entries[i].isFile {
        files := files + [entries[i]];
      }
    }
    assert entries[..|entries|] == entries;
  }

  /** `ingest_all_documents(dir)`: ingests the regular files of the listing one at a time, in order. */
  method IngestAll(store: VectorStore, dir: string, entries: seq<DirEntry>)
    modifies store
    ensures store.rows == IngestAllRows(old(store.rows), dir, Files(entries))
  {
    var files := ListFiles(entries);
    if |files| == 0 {
      return;
    }
    for i := 0 to |files|
      invariant store.rows == IngestAllRows(old(store.rows), dir, files[..i])
    {
      ghost var done := files[..i + 1];
      assert done[..i] == files[..i] && done[i] == files[i];
      var _ := IngestDocument(store, PathJoin(dir, files[i].name), files[i].documents, files[i].chunks);
    }
    assert files[..|files|] == files;
  }

  // ---------------------------------------------------------------------------
  // Properties of ingestion
  // ---------------------------------------------------------------------------

  /** A document that loads, splits into at least one node, and is written. */
  predicate Productive(documents: seq<string>, chunks: seq<Chunk>)
  {
    |documents| > 0 && |chunks| > 0
  }

  /** Ingestion only appends rows. */
  lemma {:induction false} IngestAllExtends(rows: seq<Dict>, dir: string, files: seq<DirEntry>)
    ensures rows <= IngestAllRows(rows, dir, files)
    decreases |files|
  {
    if |files| > 0 {
      IngestAllExtends(rows, dir, files[..|files| - 1]);
    }
  }

  /** A name indexed in some rows stays indexed once more rows are added. */
  lemma IndexedStaysIndexed(rows: seq<Dict>, more: seq<Dict>, docName: string)
    requires IsIndexed(rows, docName) && rows <= more
    ensures IsIndexed(more, docName)
  {
    IsIndexedIff(rows, docName);
    IsIndexedIff(more, docName);
    var i :| 0 <= i < |rows| && RowMatches(rows[i], docName);
    assert more[i] == rows[i];
  }

  /**
   * Once a document is written, its name is indexed: the first new row
   * carries `doc_name`, which contains the name.
   */
  lemma IngestMarksIndexed(rows: seq<Dict>, path: string, documents: seq<string>, chunks: seq<Chunk>)
    requires NoEscapes(Basename(path)) && Productive(documents, chunks)
    ensures IsIndexed(IngestRows(rows, path, documents, chunks), Basename(path))
  {
    var docName := Basename(path);
    if !IsIndexed(rows, docName) {
      var after := IngestRows(rows, path, documents, chunks);
      var meta := Tagged(chunks[0], docName);
      TaggedRecordsName(chunks[0], docName);
      SerializedContainsValue(meta, "doc_name", PyStr(docName));
      LikeWhenContained(Serialize(meta), docName);
      assert after[|rows|] == meta;
      IsIndexedIff(after, docName);
    }
  }

  /** A document whose name is already indexed is skipped and the store is unchanged. */
  lemma IndexedDocumentSkipped(rows: seq<Dict>, path: string, documents: seq<string>, chunks: seq<Chunk>)
    requires IsIndexed(rows, Basename(path))
    ensures IngestRows(rows, path, documents, chunks) == rows
  {
  }

  /**
   * Ingesting the same file twice adds its rows once: the second call finds
   * the name and skips, or the first call wrote nothing and so does the
   * second.
   */
  lemma IngestTwiceAddsOnce(rows: seq<Dict>, path: string, documents: seq<string>, chunks: seq<Chunk>)
    requires NoEscapes(Basename(path))
    ensures var once := IngestRows(rows, path, documents, chunks);
      IngestRows(once, path, documents, chunks) == once
  {
    var once := IngestRows(rows, path, documents, chunks);
    if Productive(documents, chunks) {
      IngestMarksIndexed(rows, path, documents, chunks);
    } else if !IsIndexed(rows, Basename(path)) && |documents| > 0 {
      assert once == rows;
    }
  }

  /**
   * The substring false positive: after document A is written, a document B
   * whose name occurs inside A's name is skipped, although B was never
   * ingested.
   */
  lemma SubstringNameSkipped(rows: seq<Dict>, pathA: string, docsA: seq<string>, chunksA: seq<Chunk>,
                             pathB: string, docsB: seq<string>, chunksB: seq<Chunk>)
    requires Productive(docsA, chunksA) && !IsIndexed(rows, Basename(pathA))
    requires NoEscapes(Basename(pathB)) && Contains(Basename(pathA), Basename(pathB))
    ensures var afterA := IngestRows(rows, pathA, docsA, chunksA);
      IngestRows(afterA, pathB, docsB, chunksB) == afterA
  {
    var a, b := Basename(pathA), Basename(pathB);
    var afterA := IngestRows(rows, pathA, docsA, chunksA);
    var meta := Tagged(chunksA[0], a);
    TaggedRecordsName(chunksA[0], a);
    SerializedContainsValue(meta, "doc_name", PyStr(a));
    ContainsTransitive(Serialize(meta), a, b);
    LikeWhenContained(Serialize(meta), b);
    assert afterA[|rows|] == meta;
    IsIndexedIff(afterA, b);
  }

  /**
   * The wildcard false positive: a name holding `_` or `%` is reported indexed
   * when a row contains a different name that agrees with it outside the
   * wildcards (for instance "hr_2020.pdf" against a stored "hr-2020.pdf").
   */
  lemma WildcardNameMatches(rows: seq<Dict>, i: nat, stored: string, name: string)
    requires i < |rows| && Contains(Serialize(rows[i]), stored)
    requires NoBackslash(name) && WindowMatches(stored, name)
    ensures IsIndexed(rows, name)
  {
    var text := Serialize(rows[i]);
    OccurrenceOf(text, stored);
    var j :| 0 <= j <= |text| && stored <= text[j..];
    assert WindowMatches(text[j..], name);
    LikeAt(text, j, name);
    IsIndexedIff(rows, name);
  }

  /** A name taken from a directory listing: no '/', and held as it is in the stored JSON text. */
  predicate PlainName(name: string)
  {
    NoEscapes(name) && forall i :: 0 <= i < |name| ==> name[i] != '/'
  }

  predicate PlainNames(files: seq<DirEntry>)
  {
    forall j :: 0 <= j < |files| ==> PlainName(files[j].name)
  }

  /** Ingesting one document only appends rows. */
  lemma IngestRowsExtends(rows: seq<Dict>, path: string, documents: seq<string>, chunks: seq<Chunk>)
    ensures rows <= IngestRows(rows, path, documents, chunks)
  {
  }

  /** One step of `IngestAllRows`: the last file is ingested into the rows the others leave. */
  lemma IngestAllRowsStep(rows: seq<Dict>, dir: string, files: seq<DirEntry>)
    requires |files| > 0
    ensures var last := files[|files| - 1];
      IngestAllRows(rows, dir, files)
      == IngestRows(IngestAllRows(rows, dir, files[..|files| - 1]), PathJoin(dir, last.name), last.documents, last.chunks)
  {
  }

  /** A productive file with a plain name is indexed once it is ingested. */
  lemma FileIndexed(rows: seq<Dict>, dir: string, file: DirEntry)
    requires PlainName(file.name) && Productive(file.documents, file.chunks)
    ensures IsIndexed(IngestRows(rows, PathJoin(dir, file.name), file.documents, file.chunks), file.name)
  {
    BasenameOfJoin(dir, file.name);
    IngestMarksIndexed(rows, PathJoin(dir, file.name), file.documents, file.chunks);
  }

  /** A listed file writes nothing when it is unproductive or its name is already indexed. */
  lemma FileSkippedWhenIndexed(rows: seq<Dict>, dir: string, file: DirEntry)
    requires PlainName(file.name)
    requires Productive(file.documents, file.chunks) ==> IsIndexed(rows, file.name)
    ensures IngestRows(rows, PathJoin(dir, file.name), file.documents, file.chunks) == rows
  {
    var path := PathJoin(dir, file.name);
    BasenameOfJoin(dir, file.name);
    if !Productive(file.documents, file.chunks) && |file.documents| > 0 {
      assert RowsFor(file.chunks, Basename(path)) == [];
      assert rows + [] == rows;
    }
  }

  /** Ingesting the last file of a listing keeps every name the others indexed. */
  lemma StepKeepsIndexed(rows: seq<Dict>, dir: string, files: seq<DirEntry>, name: string)
    requires |files| > 0 && IsIndexed(IngestAllRows(rows, dir, files[..|files| - 1]), name)
    ensures IsIndexed(IngestAllRows(rows, dir, files), name)
  {
    var last := files[|files| - 1];
    var before := IngestAllRows(rows, dir, files[..|files| - 1]);
    IngestAllRowsStep(rows, dir, files);
    IngestRowsExtends(before, PathJoin(dir, last.name), last.documents, last.chunks);
    IndexedStaysIndexed(before, IngestAllRows(rows, dir, files), name);
  }

  /** The last file of a listing, when productive, is indexed once the listing is ingested. */
  lemma LastFileIndexed(rows: seq<Dict>, dir: string, files: seq<DirEntry>)
    requires |files| > 0 && PlainName(files[|files| - 1].name)
    requires Productive(files[|files| - 1].documents, files[|files| - 1].chunks)
    ensures IsIndexed(IngestAllRows(rows, dir, files), files[|files| - 1].name)
  {
    IngestAllRowsStep(rows, dir, files);
    FileIndexed(IngestAllRows(rows, dir, files[..|files| - 1]), dir, files[|files| - 1]);
  }

  /** A productive file of the listing is indexed once the whole listing is ingested. */
  lemma {:induction false} ProductiveFileIndexed(rows: seq<Dict>, dir: string, files: seq<DirEntry>, j: nat)
    requires PlainNames(files) && j < |files| && Productive(files[j].documents, files[j].chunks)
    ensures IsIndexed(IngestAllRows(rows, dir, files), files[j].name)
    decreases |files|
  {
    var n := |files| - 1;
    if j < n {
      var init := files[..n];
      assert PlainNames(init) && init[j] == files[j];
      ProductiveFileIndexed(rows, dir, init, j);
      StepKeepsIndexed(rows, dir, files, files[j].name);
    } else {
      LastFileIndexed(rows, dir, files);
    }
  }

  /** After ingesting a listing, every productive file in it is indexed. */
  lemma ProductiveFilesIndexed(rows: seq<Dict>, dir: string, files: seq<DirEntry>)
    requires PlainNames(files)
    ensures forall j :: 0 <= j < |files| && Productive(files[j].documents, files[j].chunks) ==>
      IsIndexed(IngestAllRows(rows, dir, files), files[j].name)
  {
    forall j | 0 <= j < |files| && Productive(files[j].documents, files[j].chunks)
      ensures IsIndexed(IngestAllRows(rows, dir, files), files[j].name)
    {
      ProductiveFileIndexed(rows, dir, files, j);
    }
  }

  /** Ingesting a listing whose productive files are all indexed already changes nothing. */
  lemma {:induction false} StableWhenIndexed(rows: seq<Dict>, dir: string, files: seq<DirEntry>)
    requires PlainNames(files)
    requires forall j :: 0 <= j < |files| && Productive(files[j].documents, files[j].chunks) ==> IsIndexed(rows, files[j].name)
    ensures IngestAllRows(rows, dir, files) == rows
    decreases |files|
  {
    if |files| > 0 {
      var n := |files| - 1;
      var init := files[..n];
      assert PlainNames(init);
      assert forall j :: 0 <= j < n ==> init[j] == files[j];
      StableWhenIndexed(rows, dir, init);
      IngestAllRowsStep(rows, dir, files);
      FileSkippedWhenIndexed(rows, dir, files[n]);
    }
  }

  /**
   * Running `ingest_all_documents` a second time over the same listing
   * changes nothing: every file written the first time is now indexed and is
   * skipped, and every other file writes nothing again.
   */
  lemma IngestAllTwiceAddsOnce(rows: seq<Dict>, dir: string, entries: seq<DirEntry>)
    requires PlainNames(Files(entries))
    ensures var once := IngestAllRows(rows, dir, Files(entries));
      IngestAllRows(once, dir, Files(entries)) == once
  {
    ProductiveFilesIndexed(rows, dir, Files(entries));
    StableWhenIndexed(IngestAllRows(rows, dir, Files(entries)), dir, Files(entries));
  }
}
