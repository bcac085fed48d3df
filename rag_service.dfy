/** The retrieval-augmented answering service of the assistant (backend/rag_service.py):
    building the knowledge base from the processed documents, and answering a
    question from the chunks the vector store retrieves. The language model is a
    parameter. */
module RagService {
  import opened Results
  import opened PyStr
  import opened PyValues
  import opened TextChunker
  import opened DocumentProcessor
  import opened ChromaManager

  /** The collection the service reads and fills. */
  const Collection := "smr_documents"

  /** Only chunks closer than this distance are used as context. */
  const DistanceCutoff: real := 0.7

  const NotFoundAnswer := "I couldn't find relevant information in the current dataset. Please check the uploaded files or add relevant documents to the knowledge base."
  const NotRelevantAnswer := "I couldn't find sufficiently relevant information in the current dataset. Please check the uploaded files or add more specific documents to the knowledge base."
  const ErrorAnswer := "I encountered an error while processing your question. Please try again or contact support if the issue persists."

  /** The message of the TypeError `None < 0.7` raises. */
  const NoneDistanceError := "'<' not supported between instances of 'NoneType' and 'float'"

  // ------------------------------------------------------------------
  // query_rag
  // ------------------------------------------------------------------

  /** One entry of `sources`: the file, the relevance score and the chunk index. */
  datatype Source = Source(document: Value, relevance: real, chunk: Value)

  /** The answer dictionary of `query_rag`; the two counts are present only on success. */
  datatype RagAnswer = RagAnswer(
    answer: string, sources: seq<Source>, contextUsed: bool, error: Option<string>,
    chunksRetrieved: Option<nat>, chunksUsed: Option<nat>)

  /** The answer given when no context is used. */
  function Fallback(answer: string, error: Option<string>): RagAnswer {
    RagAnswer(answer, [], false, error, None, None)
  }

  /** The `good_chunks` comprehension: the hits closer than the cutoff, in order; a hit
      without a distance cannot be compared and raises. */
  function GoodChunks(hits: seq<Hit>): Result<seq<Hit>, string>
    decreases |hits|
  {
    if hits == [] then Ok([])
    else if hits[0].distance.None? then Err(NoneDistanceError)
    else
      var rest :- GoodChunks(hits[1..]);
      Ok((if hits[0].distance.value < DistanceCutoff then [hits[0]] else []) + rest)
  }

  /** The filter succeeds exactly when every hit has a distance; it then keeps exactly
      the hits closer than the cutoff and nothing else. */
  lemma {:induction false} GoodChunksFacts(hits: seq<Hit>)
    ensures GoodChunks(hits).Ok? <==> forall k :: 0 <= k < |hits| ==> hits[k].distance.Some?
    ensures GoodChunks(hits).Err? ==> GoodChunks(hits).error == NoneDistanceError
    ensures GoodChunks(hits).Ok? ==>
      && |GoodChunks(hits).value| <= |hits|
      && forall h :: h in GoodChunks(hits).value <==> h in hits && h.distance.value < DistanceCutoff
    decreases |hits|
  {
    if hits != [] {
      GoodChunksFacts(hits[1..]);
      assert forall k :: 1 <= k < |hits| ==> hits[k] == hits[1..][k - 1];
      if GoodChunks(hits).Ok? {
        assert hits == [hits[0]] + hits[1..];
      } else if hits[0].distance.Some? {
        var k :| 0 <= k < |hits[1..]| && hits[1..][k].distance.None?;
        assert hits[k + 1].distance.None?;
      }
    }
  }

  /** The filter keeps the order of the hits: filtering a concatenation concatenates
      the filtered parts. */
  lemma {:induction false} GoodChunksAppend(a: seq<Hit>, b: seq<Hit>)
    requires GoodChunks(a).Ok? && GoodChunks(b).Ok?
    ensures GoodChunks(a + b) == Ok(GoodChunks(a).value + GoodChunks(b).value)
    decreases |a|
  {
    if a != [] {
      assert (a + b)[1..] == a[1..] + b;
      assert (a + b)[0] == a[0];
      GoodChunksAppend(a[1..], b);
      var head: seq<Hit> := if a[0].distance.value < DistanceCutoff then [a[0]] else [];
      assert GoodChunks(a).value == head + GoodChunks(a[1..]).value;
      assert head + (GoodChunks(a[1..]).value + GoodChunks(b).value)
          == (head + GoodChunks(a[1..]).value) + GoodChunks(b).value;
    } else {
      assert a + b == b;
      assert [] + GoodChunks(b).value == GoodChunks(b).value;
    }
  }

  /** `f"Context {i+1}:\n{chunk['content']}"`. */
  function ContextPart(i: nat, hit: Hit): string {
    "Context " + NatToString(i + 1) + ":\n" + hit.content
  }

  /** The context parts, numbered from 1. */
  function ContextParts(good: seq<Hit>): (parts: seq<string>)
    ensures |parts| == |good|
  {
    seq(|good|, i requires 0 <= i < |good| => ContextPart(i, good[i]))
  }

  /** The source entry of a hit, with 'Unknown' and 0 for missing metadata. */
  function SourceOf(hit: Hit): Source {
    Source(GetOr(hit.metadata, "source_file", StrV("Unknown")), hit.relevanceScore,
           GetOr(hit.metadata, "chunk_index", IntV(0)))
  }

  function SourcesOf(good: seq<Hit>): (sources: seq<Source>)
    ensures |sources| == |good|
  {
    seq(|good|, i requires 0 <= i < |good| => SourceOf(good[i]))
  }

  /** One source per used chunk, in the same order, naming its file and chunk, or
      'Unknown' and 0 when the metadata lacks them. */
  lemma SourcesFacts(good: seq<Hit>)
    ensures forall i :: 0 <= i < |good| ==>
      var s := SourcesOf(good)[i];
      && s.relevance == good[i].relevanceScore
      && (!HasKey(good[i].metadata, "source_file") ==> s.document == StrV("Unknown"))
      && (!HasKey(good[i].metadata, "chunk_index") ==> s.chunk == IntV(0))
      && (HasKey(good[i].metadata, "source_file") ==>
            exists j :: 0 <= j < |good[i].metadata| && good[i].metadata[j] == ("source_file", s.document))
  {
  }

  /** The opening and closing instructions of the prompt. */
  const PromptIntro := "Based on the following context about Dry Methane Reformer operations, please answer the user's question.\n\nContext:\n"
  const PromptClosing := "\n\nPlease provide a comprehensive answer based on the context. If the context doesn't fully address the question, mention what information is available and what might be missing."

  /** The prompt sent to the language model. */
  function Prompt(context: string, query: string): string {
    PromptIntro + context + "\n\nUser Question: " + query + PromptClosing
  }

  /** `query_rag` on what the retrieval returned; `llm` answers a prompt. */
  function Answer(query: string, retrieval: QueryResult, llm: string -> string): RagAnswer {
    if retrieval.error.Some? && retrieval.error.value != "" then Fallback(NotFoundAnswer, retrieval.error)
    else if retrieval.results == [] then Fallback(NotFoundAnswer, None)
    else
      match GoodChunks(retrieval.results)
      case Err(e) => Fallback(ErrorAnswer, Some(e))
      case Ok(good) =>
        if good == [] then Fallback(NotRelevantAnswer, None)
        else Answered(query, |retrieval.results|, good, llm)
  }

  /** The answer built from the used chunks. */
  function Answered(query: string, retrieved: nat, good: seq<Hit>, llm: string -> string): RagAnswer {
    var context := Join(ContextParts(good), "\n\n");
    RagAnswer(llm(Prompt(context, query)), SourcesOf(good), true, None, Some(retrieved), Some(|good|))
  }

  /** A retrieval error or no hits gives the not-found answer without sources, and a
      failed comparison the error answer. */
  lemma AnswerFallbacks(query: string, retrieval: QueryResult, llm: string -> string)
    ensures (retrieval.error.Some? && retrieval.error.value != "") || retrieval.results == [] ==>
      var a := Answer(query, retrieval, llm);
      a.answer == NotFoundAnswer && !a.contextUsed && a.sources == [] && a.chunksUsed == None
    ensures ((retrieval.error.None? || retrieval.error.value == "") && retrieval.results != [] &&
             exists k :: 0 <= k < |retrieval.results| && retrieval.results[k].distance.None?) ==>
      Answer(query, retrieval, llm) == Fallback(ErrorAnswer, Some(NoneDistanceError))
  {
    GoodChunksFacts(retrieval.results);
  }

  /** Context is used exactly when every hit has a distance and some hit is under the
      cutoff (otherwise the not-relevant answer is given); then there is one source per
      used chunk, and no more chunks are used than were retrieved. */
  lemma AnswerContext(query: string, retrieval: QueryResult, llm: string -> string)
    requires retrieval.error.None? || retrieval.error.value == ""
    requires forall k :: 0 <= k < |retrieval.results| ==> retrieval.results[k].distance.Some?
    ensures var a := Answer(query, retrieval, llm);
      && (a.contextUsed <==>
            exists k :: 0 <= k < |retrieval.results| && retrieval.results[k].distance.value < DistanceCutoff)
      && (!a.contextUsed ==> a.sources == [] && (retrieval.results == [] || a.answer == NotRelevantAnswer))
      && (a.contextUsed ==>
            && a.chunksUsed.Some? && a.chunksRetrieved == Some(|retrieval.results|)
            && 1 <= a.chunksUsed.value <= a.chunksRetrieved.value
            && |a.sources| == a.chunksUsed.value)
  {
    var hits := retrieval.results;
    GoodChunksFacts(hits);
    var good := GoodChunks(hits).value;
    if good != [] {
      assert good[0] in good;
    }
    if exists k :: 0 <= k < |hits| && hits[k].distance.value < DistanceCutoff {
      var k :| 0 <= k < |hits| && hits[k].distance.value < DistanceCutoff;
      assert hits[k] in good;
    }
  }

  /** The answer from the used chunks, with the loop that builds the context. */
  method AnswerFrom(query: string, retrieved: nat, good: seq<Hit>, llm: string -> string) returns (answer: RagAnswer)
    ensures answer == Answered(query, retrieved, good, llm)
  {
    var contextText, sources := BuildContext(good);
    var response := llm(Prompt(contextText, query));
    answer := RagAnswer(response, sources, true, None, Some(retrieved), Some(|good|));
  }

  /** The loop of `query_rag` that appends the context parts and the sources. */
  method BuildContext(good: seq<Hit>) returns (contextText: string, sources: seq<Source>)
    ensures contextText == Join(ContextParts(good), "\n\n")
    ensures sources == SourcesOf(good)
  {
    var parts: seq<string> := [];
    sources := [];
    for i := 0 to |good|
      invariant parts == ContextParts(good[..i])
      invariant sources == SourcesOf(good[..i])
    {
      parts := parts + [ContextPart(i, good[i])];
      sources := sources + [SourceOf(good[i])];
    }
    assert good[..|good|] == good;
    contextText := Join(parts, "\n\n");
  }

  // ------------------------------------------------------------------
  // initialize_knowledge_base
  // ------------------------------------------------------------------

  /** The fields of a processed document the chunker reads. */
  function DataOf(doc: ProcessedDoc): DocumentData {
    DocumentData(Some(doc.content), Some(doc.filename), Some(doc.fileType))
  }

  /** The chunks of the successful documents, in order; a chunking error stops it. */
  function AllChunks(docs: seq<ProcessedDoc>): Result<seq<Chunk>, ChunkError>
    decreases |docs|
  {
    if docs == [] then Ok([])
    else
      var done :- AllChunks(docs[..|docs| - 1]);
      var doc := docs[|docs| - 1];
      if !doc.success then Ok(done)
      else
        var chunks :- DocumentChunks(DefaultChunker, DataOf(doc), "recursive");
        Ok(done + chunks)
  }

  /** Only successful documents are chunked: every chunk carries the name of a
      successful document and stripped, non-empty content; a failed document adds
      nothing. */
  lemma {:induction false} AllChunksFacts(docs: seq<ProcessedDoc>)
    ensures AllChunks(docs).Ok? ==>
      forall c :: c in AllChunks(docs).value ==>
        && c.document.Some?
        && (exists j :: 0 <= j < |docs| && docs[j].success && c.document.value.sourceFile == docs[j].filename)
        && c.content != "" && Strip(c.content) == c.content
    ensures (forall j :: 0 <= j < |docs| ==> !docs[j].success) ==> AllChunks(docs) == Ok([])
    decreases |docs|
  {
    if docs != [] {
      var init := docs[..|docs| - 1];
      var doc := docs[|docs| - 1];
      AllChunksFacts(init);
      assert forall j :: 0 <= j < |init| ==> init[j] == docs[j];
      if AllChunks(docs).Ok? && doc.success {
        ChunkDocumentFacts(DefaultChunker, DataOf(doc), "recursive");
        DocumentChunksStripped(DataOf(doc));
        var chunks := DocumentChunks(DefaultChunker, DataOf(doc), "recursive").value;
        forall c | c in chunks
          ensures c.document.Some? && c.document.value.sourceFile == doc.filename
        {
          var i :| 0 <= i < |chunks| && chunks[i] == c;
        }
      }
    }
  }

  /** The chunks of one document have stripped content. */
  lemma DocumentChunksStripped(doc: DocumentData)
    ensures DocumentChunks(DefaultChunker, doc, "recursive").Ok? ==>
      forall c :: c in DocumentChunks(DefaultChunker, doc, "recursive").value ==> Strip(c.content) == c.content
  {
    var text := doc.content.GetOr("");
    if !IsBlank(text) && DocumentChunks(DefaultChunker, doc, "recursive").Ok? {
      var raw := SplitRecursive(text, DefaultSeparators, DefaultChunker.chunkSize).value;
      var plain := ChunkRecordsFrom(raw, 0);
      ChunkContentStripped(raw);
      var r := Annotated(plain, doc);
      forall c | c in r
        ensures Strip(c.content) == c.content
      {
        var i :| 0 <= i < |r| && r[i] == c;
        assert plain[i] in plain;
      }
    }
  }

  /** The dictionary of a chunk as `add_documents` receives it. */
  function ChunkEntries(c: Chunk): Entries {
    [("content", StrV(c.content)), ("chunk_id", IntV(c.chunkId)),
     ("chunk_size", IntV(c.chunkSize)), ("chunk_type", StrV(c.chunkType))]
    + match c.document
      case None => []
      case Some(info) =>
        [("document_id", StrV(info.documentId)), ("file_type", StrV(info.fileType)),
         ("chunk_index", IntV(info.chunkIndex)), ("total_chunks", IntV(info.totalChunks)),
         ("source_file", StrV(info.sourceFile))]
  }

  function EntriesOf(chunks: seq<Chunk>): (r: seq<Entries>)
    ensures |r| == |chunks|
  {
    seq(|chunks|, i requires 0 <= i < |chunks| => ChunkEntries(chunks[i]))
  }

  /** A chunk dictionary holds integers under its integer fields, so its metadata can
      be built, and its content is the chunk's. */
  lemma ChunkEntriesAccepted(c: Chunk)
    ensures ContentOf(ChunkEntries(c)) == Ok(Strip(c.content))
    ensures MetadataOf(ChunkEntries(c)).Ok?
  {
    var e := ChunkEntries(c);
    IntFieldAccepted(e, "chunk_index");
    IntFieldAccepted(e, "total_chunks");
    IntFieldAccepted(e, "chunk_size");
  }

  lemma IntFieldAccepted(e: Entries, key: string)
    requires forall j :: 0 <= j < |e| && e[j].0 == key ==> e[j].1.IntV?
    ensures IntOf(GetOr(e, key, IntV(0))).Ok?
  {
  }

  /** Chunks with stripped, non-empty content are all kept by the preparation. */
  lemma {:induction false} PrepareKeepsChunks(chunks: seq<Chunk>, freshId: nat -> string)
    requires forall c :: c in chunks ==> c.content != "" && Strip(c.content) == c.content
    ensures Prepare(EntriesOf(chunks), freshId).Ok?
    ensures |Prepare(EntriesOf(chunks), freshId).value.documents| == |chunks|
    decreases |chunks|
  {
    if chunks != [] {
      var init := chunks[..|chunks| - 1];
      var c := chunks[|chunks| - 1];
      assert EntriesOf(chunks)[..|chunks| - 1] == EntriesOf(init);
      PrepareKeepsChunks(init, freshId);
      ChunkEntriesAccepted(c);
    }
  }

  /** The status dictionary of `initialize_knowledge_base`. */
  datatype InitStatus =
    | NoDocuments
    | NoChunks
    | Failed(error: string)
    | Initialized(documentsProcessed: nat, chunksCreated: nat, collectionCount: nat)

  /** The message of a chunking ValueError. */
  function ChunkErrorText(e: ChunkError): string {
    match e
    case EmptySeparator => "empty separator"
    case ZeroRangeStep => "range() arg 3 must not be zero"
    case UnsupportedStrategy(s) => "Unsupported chunking strategy: " + s
  }

  /** The message of an `add_documents` failure: the text of the AttributeError or of
      the ValueError or TypeError `int()` raises. The offending text is quoted as
      `repr` quotes text holding no quote or backslash. */
  function AddErrorText(e: AddError): string {
    match e
    case ContentNotText(t) => "'" + t + "' object has no attribute 'strip'"
    case NotDecimal(s) => "invalid literal for int() with base 10: '" + s + "'"
    case NotANumber(t) =>
      "int() argument must be a string, a bytes-like object or a real number, not '" + t + "'"
  }

  /** `initialize_knowledge_base` after the documents have been read, for a collection
      holding `stored`: the status, and the records the collection then holds. */
  function InitOutcome(docs: seq<ProcessedDoc>, stored: seq<Record>, freshId: nat -> string): (InitStatus, seq<Record>) {
    if docs == [] then (NoDocuments, stored)
    else
      match AllChunks(docs)
      case Err(e) => (Failed(ChunkErrorText(e)), stored)
      case Ok(all) =>
        if all == [] then (NoChunks, stored)
        else
          match Prepare(EntriesOf(all), freshId)
          case Err(e) => (Failed(AddErrorText(e)), stored)
          case Ok(p) =>
            PrepareFacts(EntriesOf(all), freshId);
            var records := stored + Zip(p);
            (Initialized(|docs|, |all|, |records|), records)
  }

  /** The knowledge base is never left half-built by a chunking error, every chunk
      created is stored, so the collection grows by exactly the chunks created, and a
      directory with no successful document gives `no_chunks`. */
  lemma InitOutcomeFacts(docs: seq<ProcessedDoc>, stored: seq<Record>, freshId: nat -> string)
    ensures var (status, records) := InitOutcome(docs, stored, freshId);
      && (status.NoDocuments? <==> docs == [])
      && (!status.Initialized? ==> records == stored)
      && (status.Failed? ==> AllChunks(docs).Err?)
      && (status.Initialized? ==>
            && status.documentsProcessed == |docs|
            && 1 <= status.chunksCreated
            && status.collectionCount == |records| == |stored| + status.chunksCreated
            && records[..|stored|] == stored)
    ensures docs != [] && (forall j :: 0 <= j < |docs| ==> !docs[j].success) ==>
      InitOutcome(docs, stored, freshId).0 == NoChunks
  {
    AllChunksFacts(docs);
    if docs != [] && AllChunks(docs).Ok? {
      var all := AllChunks(docs).value;
      PrepareKeepsChunks(all, freshId);
      PrepareFacts(EntriesOf(all), freshId);
    }
  }

  // ------------------------------------------------------------------
  // The service
  // ------------------------------------------------------------------

  /** The service over one vector-store manager. */
  class Rag {
    const chroma: ChromaDBManager

    constructor (chroma: ChromaDBManager)
      ensures this.chroma == chroma
    {
      this.chroma := chroma;
    }

    /** `query_rag(query, max_context_chunks)`: retrieves up to that many hits from the
        collection and answers from those under the cutoff. */
    method QueryRag(query: string, maxContextChunks: int, search: Search, llm: string -> string)
      returns (answer: RagAnswer)
      requires chroma.Valid()
      modifies chroma
      ensures chroma.Valid()
      ensures chroma.client == (if Collection in old(chroma.client) then old(chroma.client) else old(chroma.client)[Collection := []])
      ensures chroma.collections == old(chroma.collections) + {Collection}
      ensures answer == Answer(query, QueryOutcome(chroma.client[Collection], query, maxContextChunks, None, search), llm)
    {
      var retrieval := chroma.QueryCollection(query, maxContextChunks, Collection, None, search);
      if retrieval.error.Some? && retrieval.error.value != "" {
        return Fallback(NotFoundAnswer, retrieval.error);
      }
      var relevant := retrieval.results;
      if relevant == [] {
        return Fallback(NotFoundAnswer, None);
      }
      var filtered := GoodChunks(relevant);
      if filtered.Err? {
        return Fallback(ErrorAnswer, Some(filtered.error));
      }
      var good := filtered.value;
      if good == [] {
        return Fallback(NotRelevantAnswer, None);
      }
      answer := AnswerFrom(query, |relevant|, good, llm);
    }

    /** `initialize_knowledge_base` over the documents `process_directory` returned:
        the successful ones are chunked and the chunks added to the collection. */
    method InitializeKnowledgeBase(docs: seq<ProcessedDoc>, freshId: nat -> string)
      returns (status: InitStatus)
      requires chroma.Valid()
      modifies chroma
      ensures chroma.Valid()
      ensures docs == [] ==> status == NoDocuments && chroma.client == old(chroma.client)
      ensures docs != [] ==>
        var base := if Collection in old(chroma.client) then old(chroma.client) else old(chroma.client)[Collection := []];
        && Collection in base
        && status == InitOutcome(docs, base[Collection], freshId).0
        && chroma.client == base[Collection := InitOutcome(docs, base[Collection], freshId).1]
    {
      if docs == [] {
        return NoDocuments;
      }
      chroma.CreateCollection(Collection);
      var chunked := GatherChunks(docs);
      if chunked.Err? {
        assert chroma.client[Collection := chroma.client[Collection]] == chroma.client;
        return Failed(ChunkErrorText(chunked.error));
      }
      var all := chunked.value;
      if all == [] {
        assert chroma.client[Collection := chroma.client[Collection]] == chroma.client;
        return NoChunks;
      }
      ghost var stored := chroma.client[Collection];
      var added := chroma.AddDocuments(EntriesOf(all), Collection, freshId);
      if added.Err? {
        return Failed(AddErrorText(added.error));
      }
      status := Initialized(|docs|, |all|, |chroma.client[Collection]|);
    }
  }

  /** The loop of `initialize_knowledge_base` that extends `all_chunks`. */
  method GatherChunks(docs: seq<ProcessedDoc>) returns (res: Result<seq<Chunk>, ChunkError>)
    ensures res == AllChunks(docs)
  {
    var all: seq<Chunk> := [];
    for i := 0 to |docs|
      invariant AllChunks(docs[..i]) == Ok(all)
    {
      assert docs[..i + 1][..i] == docs[..i];
      var doc := docs[i];
      if doc.success {
        var chunks := ChunkDocument(DefaultChunker, DataOf(doc), "recursive");
        if chunks.Err? {
          AllChunksErrPrefix(docs, i + 1);
          return Err(chunks.error);
        }
        all := all + chunks.value;
      }
    }
    assert docs[..|docs|] == docs;
    res := Ok(all);
  }

  /** A chunking error stops the gathering, whatever follows it. */
  lemma {:induction false} AllChunksErrPrefix(docs: seq<ProcessedDoc>, i: nat)
    requires i <= |docs| && AllChunks(docs[..i]).Err?
    ensures AllChunks(docs) == AllChunks(docs[..i])
    decreases |docs| - i
  {
    if i < |docs| {
      assert docs[..i + 1][..i] == docs[..i];
      AllChunksErrPrefix(docs, i + 1);
    } else {
      assert docs[..i] == docs;
    }
  }
}
