/** The record types of backend/models.py: documents, chunks, the chunking
    strategy enumeration and the validated chunker configuration, with their
    dictionary dumps. */
module Models {
  import opened Util

  /** A JSON-like value: what the system keeps in a `Dict[str, Any]`. */
  datatype Value =
    | VNull
    | VBool(b: bool)
    | VInt(i: int)
    | VReal(r: real)
    | VStr(s: string)
    | VList(items: seq<Value>)
    | VDict(entries: map<string, Value>)

  type Metadata = map<string, Value>

  /** A document of the knowledge base. */
  datatype Document = Document(id: string, content: string, metadata: Metadata)
  {
    /** `Document.model_dump`: the three fields under their own names. */
    function Dump(): map<string, Value>
    {
      map["id" := VStr(id), "content" := VStr(content), "metadata" := VDict(metadata)]
    }
  }

  /** Rebuilds a document from a dictionary holding its three fields. */
  function DocumentFromDict(m: map<string, Value>): (r: Option<Document>)
    ensures r.Some? ==> r.value.Dump().Keys <= m.Keys
  {
    if "id" in m && "content" in m && "metadata" in m
       && m["id"].VStr? && m["content"].VStr? && m["metadata"].VDict?
    then Some(Document(m["id"].s, m["content"].s, m["metadata"].entries))
    else None
  }

  /** The dump holds exactly the three fields and loses nothing of the document. */
  lemma DocumentDumpRoundTrip(d: Document)
    ensures d.Dump().Keys == {"id", "content", "metadata"}
    ensures DocumentFromDict(d.Dump()) == Some(d)
  {
  }

  datatype ChunkingStrategy = Fixed | Sentence | Paragraph
  {
    /** The enumeration's string value. */
    function Value(): string
    {
      match this
      case Fixed => "fixed"
      case Sentence => "sentence"
      case Paragraph => "paragraph"
    }
  }

  /** `ChunkingStrategy(s)`: the member whose value is `s`, if any. */
  function ParseChunkingStrategy(s: string): Option<ChunkingStrategy>
  {
    if s == "fixed" then Some(Fixed)
    else if s == "sentence" then Some(Sentence)
    else if s == "paragraph" then Some(Paragraph)
    else None
  }

  /** The enumeration has exactly the values "fixed", "sentence" and
      "paragraph", and parsing a value gives back its member. */
  lemma ChunkingStrategyValues(s: string)
    ensures ParseChunkingStrategy(s).Some? <==> s in {"fixed", "sentence", "paragraph"}
    ensures ParseChunkingStrategy(s).Some? ==> ParseChunkingStrategy(s).value.Value() == s
    ensures forall c: ChunkingStrategy :: ParseChunkingStrategy(c.Value()) == Some(c)
  {
  }

  /** A chunk of a document. */
  datatype DocumentChunk = DocumentChunk(
    id: string,
    documentId: string,
    content: string,
    metadata: Metadata,
    chunkIndex: int,
    strategy: ChunkingStrategy)
  {
    /** `DocumentChunk.model_dump`: six fields, the strategy as its value. */
    function Dump(): map<string, Value>
    {
      map["id" := VStr(id), "document_id" := VStr(documentId), "content" := VStr(content),
          "metadata" := VDict(metadata), "chunk_index" := VInt(chunkIndex),
          "chunk_strategy" := VStr(strategy.Value())]
    }
  }

  /** A chunk built from the three required fields only. */
  function NewChunk(id: string, documentId: string, content: string): (c: DocumentChunk)
    ensures c.id == id && c.documentId == documentId && c.content == content
    ensures c.chunkIndex == 0 && c.strategy == Fixed && c.metadata == map[]
  {
    DocumentChunk(id, documentId, content, map[], 0, Fixed)
  }

  function ChunkFromDict(m: map<string, Value>): Option<DocumentChunk>
  {
    if "id" in m && "document_id" in m && "content" in m && "metadata" in m
       && "chunk_index" in m && "chunk_strategy" in m
       && m["id"].VStr? && m["document_id"].VStr? && m["content"].VStr?
       && m["metadata"].VDict? && m["chunk_index"].VInt? && m["chunk_strategy"].VStr?
       && ParseChunkingStrategy(m["chunk_strategy"].s).Some?
    then Some(DocumentChunk(m["id"].s, m["document_id"].s, m["content"].s, m["metadata"].entries,
                            m["chunk_index"].i, ParseChunkingStrategy(m["chunk_strategy"].s).value))
    else None
  }

  /** The chunk dump holds exactly its six fields and loses nothing. */
  lemma ChunkDumpRoundTrip(c: DocumentChunk)
    ensures c.Dump().Keys == {"id", "document_id", "content", "metadata", "chunk_index", "chunk_strategy"}
    ensures c.Dump()["chunk_strategy"] == VStr(c.strategy.Value())
    ensures ChunkFromDict(c.Dump()) == Some(c)
  {
    ChunkingStrategyValues(c.strategy.Value());
  }

  /** The chunker's configuration. Only values accepted by
      `MakeProcessorConfig` are ever built by the system. */
  datatype ProcessorConfig = ProcessorConfig(chunkSize: int, chunkOverlap: int, strategy: ChunkingStrategy)
  {
    /** The field constraints: 1 <= chunk_size <= 4096 and chunk_overlap >= 0;
        nothing ties the overlap to the size. */
    predicate Valid()
    {
      1 <= chunkSize <= 4096 && chunkOverlap >= 0
    }
  }

  datatype ConfigError =
    | ChunkSizeOutOfRange(size: int)
    | NegativeOverlap(overlap: int)
    | OverlapNotBelowSize(overlap: int, size: int)

  /** `DocumentProcessorConfig(...)`: validation reports every violated
      constraint, in field order. */
  function MakeProcessorConfig(chunkSize: int, chunkOverlap: int, strategy: ChunkingStrategy)
    : (r: Result<ProcessorConfig, seq<ConfigError>>)
    ensures r.Success? <==> 1 <= chunkSize <= 4096 && chunkOverlap >= 0
    ensures r.Success? ==> r.value.Valid() && r.value == ProcessorConfig(chunkSize, chunkOverlap, strategy)
    ensures r.Failure? ==> r.error != []
    ensures r.Failure? ==> (ChunkSizeOutOfRange(chunkSize) in r.error <==> !(1 <= chunkSize <= 4096))
    ensures r.Failure? ==> (NegativeOverlap(chunkOverlap) in r.error <==> chunkOverlap < 0)
  {
    var errs := (if 1 <= chunkSize <= 4096 then [] else [ChunkSizeOutOfRange(chunkSize)])
              + (if chunkOverlap >= 0 then [] else [NegativeOverlap(chunkOverlap)]);
    if errs == [] then Success(ProcessorConfig(chunkSize, chunkOverlap, strategy)) else Failure(errs)
  }

  /** `DocumentProcessorConfig()`. */
  function DefaultProcessorConfig(): (c: ProcessorConfig)
    ensures c.Valid()
    ensures MakeProcessorConfig(256, 50, Fixed) == Success(c)
  {
    ProcessorConfig(256, 50, Fixed)
  }

  /** The configuration validation with the constraint the fixed-size
      chunker needs added: the overlap must be below the size. */
  function MakeCheckedProcessorConfig(chunkSize: int, chunkOverlap: int, strategy: ChunkingStrategy)
    : (r: Result<ProcessorConfig, seq<ConfigError>>)
    ensures r.Success? <==> MakeProcessorConfig(chunkSize, chunkOverlap, strategy).Success? && chunkOverlap < chunkSize
    ensures r.Success? ==> r == MakeProcessorConfig(chunkSize, chunkOverlap, strategy)
    ensures r.Failure? ==> (OverlapNotBelowSize(chunkOverlap, chunkSize) in r.error <==> chunkOverlap >= chunkSize)
  {
    match MakeProcessorConfig(chunkSize, chunkOverlap, strategy)
    case Success(c) =>
      if chunkOverlap < chunkSize then Success(c) else Failure([OverlapNotBelowSize(chunkOverlap, chunkSize)])
    case Failure(errs) =>
      Failure(errs + (if chunkOverlap < chunkSize then [] else [OverlapNotBelowSize(chunkOverlap, chunkSize)]))
  }
}
