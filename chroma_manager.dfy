/** The vector-store manager of the knowledge base (backend/chroma_manager.py):
    adding chunk records to a collection in batches of 100, and formatting the
    answer of a similarity query. The Chroma client is modelled by the collections
    it holds; the embedding and the similarity search are parameters. */
module ChromaManager {
  import opened Results
  import opened PyStr
  import opened PyValues

  /** What `add_documents` raises on a malformed chunk. */
  datatype AddError =
    | ContentNotText(typeName: string)  // AttributeError: `content` has no `strip`
    | NotDecimal(text: string)          // ValueError: `int(...)` of text that is not decimal
    | NotANumber(typeName: string)      // TypeError: `int(...)` of a value that is no number

  /** The metadata stored with each document. */
  datatype ChunkMetadata = ChunkMetadata(
    documentId: string, fileType: string, chunkIndex: int, totalChunks: int,
    chunkSize: int, chunkType: string, sourceFile: string)

  /** A document held by a collection. */
  datatype Record = Record(id: string, document: string, metadata: ChunkMetadata)

  /** Python `int(v)`: floats are truncated toward zero, text must be decimal. */
  function IntOf(v: Value): Result<int, AddError> {
    match v
    case IntV(i) => Ok(i)
    case BoolV(b) => Ok(if b then 1 else 0)
    case RealV(r, _) => Ok(if r >= 0.0 then r.Floor else -((-r).Floor))
    case StrV(s) =>
      (match ParseInt(s)
       case Some(i) => Ok(i)
       case None => Err(NotDecimal(s)))
    case _ => Err(NotANumber(TypeName(v)))
  }

  /** `chunk.get('content', '').strip()`. */
  function ContentOf(chunk: Entries): Result<string, AddError> {
    match GetOr(chunk, "content", StrV(""))
    case StrV(s) => Ok(Strip(s))
    case other => Err(ContentNotText(TypeName(other)))
  }

  /** The metadata dictionary of a chunk, with 'unknown' and 0 for missing fields. */
  function MetadataOf(chunk: Entries): Result<ChunkMetadata, AddError> {
    var index :- IntOf(GetOr(chunk, "chunk_index", IntV(0)));
    var total :- IntOf(GetOr(chunk, "total_chunks", IntV(0)));
    var size :- IntOf(GetOr(chunk, "chunk_size", IntV(0)));
    Ok(ChunkMetadata(
      Str(GetOr(chunk, "document_id", StrV("unknown"))),
      Str(GetOr(chunk, "file_type", StrV("unknown"))),
      index, total, size,
      Str(GetOr(chunk, "chunk_type", StrV("unknown"))),
      Str(GetOr(chunk, "source_file", StrV("unknown")))))
  }

  /** An integer metadata field that `int()` accepts: missing, or an integer. */
  predicate IntFieldOk(chunk: Entries, key: string) {
    !HasKey(chunk, key) || Get(chunk, key).value.IntV?
  }

  /** Each missing metadata field takes its own default, whatever the other fields
      hold: 'unknown' for the text fields, 0 for the integer fields; an integer field
      keeps its value; a chunk without `content` has empty content; and the metadata
      can be built whenever the three integer fields are missing or integers. */
  lemma MetadataDefaults(chunk: Entries)
    ensures !HasKey(chunk, "content") ==> ContentOf(chunk) == Ok("")
    ensures IntFieldOk(chunk, "chunk_index") && IntFieldOk(chunk, "total_chunks") && IntFieldOk(chunk, "chunk_size") ==>
      MetadataOf(chunk).Ok?
    ensures MetadataOf(chunk).Ok? ==>
      var m := MetadataOf(chunk).value;
      && (!HasKey(chunk, "document_id") ==> m.documentId == "unknown")
      && (!HasKey(chunk, "file_type") ==> m.fileType == "unknown")
      && (!HasKey(chunk, "chunk_type") ==> m.chunkType == "unknown")
      && (!HasKey(chunk, "source_file") ==> m.sourceFile == "unknown")
      && (!HasKey(chunk, "chunk_index") ==> m.chunkIndex == 0)
      && (!HasKey(chunk, "total_chunks") ==> m.totalChunks == 0)
      && (!HasKey(chunk, "chunk_size") ==> m.chunkSize == 0)
      && (HasKey(chunk, "chunk_index") && Get(chunk, "chunk_index").value.IntV? ==>
            m.chunkIndex == Get(chunk, "chunk_index").value.i)
  {
    assert Strip("") == "";
    assert Str(StrV("unknown")) == "unknown";
  }

  /** The three parallel lists `add_documents` prepares. */
  datatype Prepared = Prepared(documents: seq<string>, metadatas: seq<ChunkMetadata>, ids: seq<string>)

  /** The preparation loop: every chunk draws an identifier (`freshId` of its position),
      chunks with blank content are then dropped. */
  function Prepare(chunks: seq<Entries>, freshId: nat -> string): Result<Prepared, AddError>
    decreases |chunks|
  {
    if chunks == [] then Ok(Prepared([], [], []))
    else
      var p :- Prepare(chunks[..|chunks| - 1], freshId);
      var chunk := chunks[|chunks| - 1];
      var content :- ContentOf(chunk);
      if content == "" then Ok(p)
      else
        var metadata :- MetadataOf(chunk);
        Ok(Prepared(p.documents + [content], p.metadatas + [metadata], p.ids + [freshId(|chunks| - 1)]))
  }

  /** The number of chunks whose stripped content is not empty. */
  function NonBlank(chunks: seq<Entries>): nat
    decreases |chunks|
  {
    if chunks == [] then 0
    else
      NonBlank(chunks[..|chunks| - 1])
        + (if ContentOf(chunks[|chunks| - 1]).Ok? && ContentOf(chunks[|chunks| - 1]).value != "" then 1 else 0)
  }

  /** The lists stay the same length and index-aligned: the `k`-th document, metadata
      and id all come from the same chunk, whose stripped content is not empty; blank
      chunks are dropped and nothing else is. */
  lemma {:induction false} PrepareFacts(chunks: seq<Entries>, freshId: nat -> string)
    ensures Prepare(chunks, freshId).Ok? ==>
      var p := Prepare(chunks, freshId).value;
      && |p.documents| == |p.metadatas| == |p.ids| == NonBlank(chunks)
      && forall k :: 0 <= k < |p.documents| ==>
           exists j :: 0 <= j < |chunks| && p.documents[k] != ""
             && ContentOf(chunks[j]) == Ok(p.documents[k])
             && MetadataOf(chunks[j]) == Ok(p.metadatas[k])
             && p.ids[k] == freshId(j)
    decreases |chunks|
  {
    if chunks != [] && Prepare(chunks, freshId).Ok? {
      var init := chunks[..|chunks| - 1];
      PrepareFacts(init, freshId);
      var q := Prepare(init, freshId).value;
      var p := Prepare(chunks, freshId).value;
      forall k | 0 <= k < |p.documents|
        ensures exists j :: (0 <= j < |chunks| && p.documents[k] != ""
             && ContentOf(chunks[j]) == Ok(p.documents[k])
             && MetadataOf(chunks[j]) == Ok(p.metadatas[k])
             && p.ids[k] == freshId(j))
      {
        if k < |q.documents| {
          var j :| 0 <= j < |init| && q.documents[k] != ""
             && ContentOf(init[j]) == Ok(q.documents[k])
             && MetadataOf(init[j]) == Ok(q.metadatas[k])
             && q.ids[k] == freshId(j);
          assert chunks[j] == init[j];
        } else {
          assert chunks[|chunks| - 1] == chunks[|chunks| - 1];
        }
      }
    }
  }

  /** The records the prepared lists describe. */
  function Zip(p: Prepared): seq<Record>
    requires |p.documents| == |p.metadatas| == |p.ids|
  {
    seq(|p.documents|, k requires 0 <= k < |p.documents| => Record(p.ids[k], p.documents[k], p.metadatas[k]))
  }

  const BatchSize: nat := 100

  /** The batches `[i, min(i + 100, n))` for `i` in `range(start, n, 100)`. */
  function BatchesFrom(start: nat, n: nat): seq<(nat, nat)>
    decreases n - start
  {
    if start >= n then []
    else [(start, if start + BatchSize < n then start + BatchSize else n)] + BatchesFrom(start + BatchSize, n)
  }

  function Batches(n: nat): seq<(nat, nat)> {
    BatchesFrom(0, n)
  }

  /** The items of the batches, one batch after the other. */
  function Gather<T>(xs: seq<T>, batches: seq<(nat, nat)>): seq<T>
    requires forall b :: b in batches ==> b.0 <= b.1 <= |xs|
  {
    if batches == [] then [] else xs[batches[0].0..batches[0].1] + Gather(xs, batches[1..])
  }

  /** The batches hold between 1 and 100 items each and, taken in order, cover every
      item exactly once. */
  lemma {:induction false} BatchesCover<T>(xs: seq<T>, start: nat)
    requires start <= |xs|
    ensures forall b :: b in BatchesFrom(start, |xs|) ==>
      start <= b.0 < b.1 <= |xs| && b.1 - b.0 <= BatchSize
    ensures Gather(xs, BatchesFrom(start, |xs|)) == xs[start..]
    decreases |xs| - start
  {
    if start < |xs| {
      if start + BatchSize < |xs| {
        BatchesCover(xs, start + BatchSize);
        assert xs[start..start + BatchSize] + xs[start + BatchSize..] == xs[start..];
      } else {
        assert BatchesFrom(start + BatchSize, |xs|) == [];
        assert xs[start..|xs|] + [] == xs[start..];
      }
    }
  }

  // ------------------------------------------------------------------
  // Query formatting
  // ------------------------------------------------------------------

  /** What `collection.query` answers: one list per query text (only the first is read);
      an empty outer list stands for a missing or empty field. */
  datatype RawResults = RawResults(
    documents: seq<seq<string>>, metadatas: seq<seq<Entries>>,
    distances: seq<seq<real>>, ids: seq<seq<string>>)

  /** One formatted hit. */
  datatype Hit = Hit(content: string, metadata: Entries, distance: Option<real>, id: string, relevanceScore: real)

  /** The answer of `query_collection`. */
  datatype QueryResult = QueryResult(query: string, results: seq<Hit>, totalResults: nat, error: Option<string>)

  /** The `k`-th formatted hit; a list shorter than the documents raises IndexError. */
  function FormatHit(raw: RawResults, k: nat): Result<Hit, string>
    requires raw.documents != [] && k < |raw.documents[0]|
  {
    if raw.metadatas != [] && k >= |raw.metadatas[0]| then Err("list index out of range")
    else if raw.distances != [] && k >= |raw.distances[0]| then Err("list index out of range")
    else if raw.ids == [] || k >= |raw.ids[0]| then Err("list index out of range")
    else
      var distance := if raw.distances != [] then Some(raw.distances[0][k]) else None;
      Ok(Hit(raw.documents[0][k],
             if raw.metadatas != [] then raw.metadatas[0][k] else [],
             distance,
             raw.ids[0][k],
             1.0 - (if raw.distances != [] then raw.distances[0][k] else 0.0)))
  }

  /** The formatting loop, from the `k`-th document on. */
  function FormatHits(raw: RawResults, k: nat): Result<seq<Hit>, string>
    requires raw.documents != [] && k <= |raw.documents[0]|
    decreases |raw.documents[0]| - k
  {
    if k == |raw.documents[0]| then Ok([])
    else
      var hit :- FormatHit(raw, k);
      var rest :- FormatHits(raw, k + 1);
      Ok([hit] + rest)
  }

  /** The formatted answer to a non-empty collection; an exception while formatting
      becomes an answer with its message. */
  function Formatted(query: string, raw: RawResults): QueryResult {
    if raw.documents == [] || raw.documents[0] == [] then QueryResult(query, [], 0, None)
    else
      match FormatHits(raw, 0)
      case Ok(hits) => QueryResult(query, hits, |hits|, None)
      case Err(e) => QueryResult(query, [], 0, Some(e))
  }

  /** One hit per returned document, in order, each scored 1 - distance (1 without
      distances); the total is the number of hits. */
  lemma {:induction false} FormatHitsFacts(raw: RawResults, k: nat)
    requires raw.documents != [] && k <= |raw.documents[0]|
    ensures FormatHits(raw, k).Ok? ==>
      var hits := FormatHits(raw, k).value;
      && |hits| == |raw.documents[0]| - k
      && forall m :: 0 <= m < |hits| ==>
           hits[m].content == raw.documents[0][k + m]
           && (raw.distances == [] ==> hits[m].relevanceScore == 1.0 && hits[m].distance == None)
           && (raw.distances != [] ==>
                 k + m < |raw.distances[0]| && hits[m].relevanceScore == 1.0 - raw.distances[0][k + m])
    decreases |raw.documents[0]| - k
  {
    if k < |raw.documents[0]| && FormatHits(raw, k).Ok? {
      FormatHitsFacts(raw, k + 1);
      var hits := FormatHits(raw, k).value;
      var rest := FormatHits(raw, k + 1).value;
      var hit := FormatHit(raw, k).value;
      assert hits == [hit] + rest;
      assert hit.content == raw.documents[0][k];
      assert raw.distances != [] ==> k < |raw.distances[0]| && hit.relevanceScore == 1.0 - raw.distances[0][k];
      forall m | 1 <= m < |hits|
        ensures hits[m] == rest[m - 1] && k + m == (k + 1) + (m - 1)
      {
      }
    }
  }

  /** The answer of `query_collection` over the records of the collection. */
  function QueryOutcome(records: seq<Record>, query: string, nResults: int, filter: Option<Entries>, search: Search): QueryResult {
    if records == [] then QueryResult(query, [], 0, Some(EmptyCollection))
    else
      var count := |records|;
      Formatted(query, search(records, query, if nResults < count then nResults else count, filter))
  }

  const EmptyCollection := "No documents found in the collection"

  /** Exactly an empty collection answers no hits and the empty-collection error,
      whatever the search would return; every answer counts its hits. */
  lemma QueryOutcomeFacts(records: seq<Record>, query: string, nResults: int, filter: Option<Entries>, search: Search, other: Search)
    ensures var r := QueryOutcome(records, query, nResults, filter, search);
      && r.query == query
      && r.totalResults == |r.results|
      && (records == [] <==>
            (r.error == Some(EmptyCollection) && r.results == []
             && r == QueryOutcome(records, query, nResults, filter, other)))
  {
    if records != [] {
      var count := |records|;
      var raw := search(records, query, if nResults < count then nResults else count, filter);
      QueryResultFacts(query, raw);
      FormattedNeverEmptyCollection(query, raw);
    } else {
      assert QueryOutcome(records, query, nResults, filter, search) == QueryResult(query, [], 0, Some(EmptyCollection));
    }
  }

  /** A non-empty collection is searched for `min(n_results, count)` results and the
      answer is the formatting of what the search returns. */
  lemma QueryRequest(records: seq<Record>, query: string, nResults: int, filter: Option<Entries>, search: Search)
    requires records != []
    ensures exists n: int ::
      && n <= nResults && n <= |records| && (n == nResults || n == |records|)
      && QueryOutcome(records, query, nResults, filter, search) == Formatted(query, search(records, query, n, filter))
  {
    var n := if nResults < |records| then nResults else |records|;
    assert QueryOutcome(records, query, nResults, filter, search) == Formatted(query, search(records, query, n, filter));
  }

  /** Formatting never reports an empty collection. */
  lemma FormattedNeverEmptyCollection(query: string, raw: RawResults)
    ensures Formatted(query, raw).error != Some(EmptyCollection)
  {
    if raw.documents != [] && raw.documents[0] != [] && FormatHits(raw, 0).Err? {
      FormatHitsError(raw, 0);
    }
  }

  /** The only failure while formatting is an index out of range. */
  lemma {:induction false} FormatHitsError(raw: RawResults, k: nat)
    requires raw.documents != [] && k <= |raw.documents[0]|
    ensures FormatHits(raw, k).Err? ==> FormatHits(raw, k).error == "list index out of range"
    decreases |raw.documents[0]| - k
  {
    if k < |raw.documents[0]| {
      FormatHitsError(raw, k + 1);
    }
  }

  /** The search the collection performs: its records, the query text, how many
      results to return and the metadata filter. */
  type Search = (seq<Record>, string, int, Option<Entries>) -> RawResults

  /** The collections of the Chroma client, and the ones this manager has cached. */
  class ChromaDBManager {
    var client: map<string, seq<Record>>
    var collections: set<string>

    /** Every cached collection exists in the client. */
    predicate Valid()
      reads this
    {
      collections <= client.Keys
    }

    /** A manager over a client that already holds `existing`. */
    constructor (existing: map<string, seq<Record>>)
      ensures Valid()
      ensures client == existing && collections == {}
    {
      client := existing;
      collections := {};
    }

    /** `create_collection`: gets the named collection, creating it empty when the
        client does not have it, and caches it. */
    method CreateCollection(name: string)
      requires Valid()
      modifies this
      ensures Valid()
      ensures client == (if name in old(client) then old(client) else old(client)[name := []])
      ensures collections == old(collections) + {name}
    {
      if name !in client {
        client := client[name := []];
      }
      collections := collections + {name};
    }

    /** `add_documents(chunks, collection_name)`: nothing happens for an empty chunk list;
        otherwise the collection is fetched or created, and the prepared records are
        appended in batches of 100, unless a chunk is malformed, which raises before
        anything is added. */
    method AddDocuments(chunks: seq<Entries>, name: string, freshId: nat -> string)
      returns (res: Result<(), AddError>)
      requires Valid()
      modifies this
      ensures Valid()
      ensures chunks == [] ==> res.Ok? && client == old(client) && collections == old(collections)
      ensures chunks != [] ==>
        var base := if name in old(client) then old(client) else old(client)[name := []];
        && collections == old(collections) + {name}
        && (Prepare(chunks, freshId).Err? ==> res == Err(Prepare(chunks, freshId).error) && client == base)
        && (Prepare(chunks, freshId).Ok? ==>
              && |Prepare(chunks, freshId).value.documents| == |Prepare(chunks, freshId).value.metadatas|
                 == |Prepare(chunks, freshId).value.ids|
              && res.Ok?
              && client == base[name := base[name] + Zip(Prepare(chunks, freshId).value)])
    {
      if chunks == [] {
        return Ok(());
      }
      if name !in collections {
        CreateCollection(name);
      }
      var prepared := PrepareLists(chunks, freshId);
      if prepared.Err? {
        return Err(prepared.error);
      }
      var p := prepared.value;
      PrepareFacts(chunks, freshId);
      if p.documents == [] {
        assert Zip(p) == [];
        assert client[name] + [] == client[name];
        return Ok(());
      }
      ghost var calls := AddInBatches(name, p);
      res := Ok(());
    }

    /** The batch loop: `collection.add` on each slice `[i, min(i + 100, n))`. The
        ghost `calls` records the slices passed to `collection.add`, in order: they
        are `Batches(n)`, so `BatchesCover` applies to them. */
    method AddInBatches(name: string, p: Prepared) returns (ghost calls: seq<(nat, nat)>)
      requires Valid() && name in client
      requires |p.documents| == |p.metadatas| == |p.ids|
      modifies this
      ensures Valid() && collections == old(collections)
      ensures client == old(client)[name := old(client)[name] + Zip(p)]
      ensures calls == Batches(|p.documents|)
      ensures forall b :: b in calls ==> b.0 < b.1 <= |p.documents| && b.1 - b.0 <= BatchSize
      ensures Gather(Zip(p), calls) == Zip(p)
    {
      var n := |p.documents|;
      var i := 0;
      calls := [];
      assert old(client)[name] + Zip(p)[..0] == old(client)[name];
      assert client == old(client)[name := old(client)[name]];
      while i < n
        invariant 0 <= i <= n + BatchSize
        invariant Valid() && collections == old(collections)
        invariant client == old(client)[name := old(client)[name] + Zip(p)[..if i < n then i else n]]
        invariant calls + BatchesFrom(i, n) == Batches(n)
        decreases n - i
      {
        var endIdx := if i + BatchSize < n then i + BatchSize else n;
        AddBatch(name, p, i, endIdx);
        assert BatchesFrom(i, n) == [(i, endIdx)] + BatchesFrom(i + BatchSize, n);
        assert (calls + [(i, endIdx)]) + BatchesFrom(i + BatchSize, n) == calls + BatchesFrom(i, n);
        calls := calls + [(i, endIdx)];
        assert old(client)[name] + Zip(p)[..i] + Zip(p)[i..endIdx] == old(client)[name] + Zip(p)[..endIdx];
        i := i + BatchSize;
      }
      assert BatchesFrom(i, n) == [];
      assert calls == Batches(n);
      assert Zip(p)[..n] == Zip(p);
      BatchesCover(Zip(p), 0);
    }

    /** `collection.add` of the documents, metadatas and ids in `[lo, hi)`: one batch
        of at most 100 records. */
    method AddBatch(name: string, p: Prepared, lo: nat, hi: nat)
      requires Valid() && name in client
      requires |p.documents| == |p.metadatas| == |p.ids| && lo < hi <= |p.documents| && hi - lo <= BatchSize
      modifies this
      ensures Valid() && collections == old(collections)
      ensures client == old(client)[name := old(client)[name] + Zip(p)[lo..hi]]
    {
      var batch := seq(hi - lo, k requires 0 <= k < hi - lo => Record(p.ids[lo + k], p.documents[lo + k], p.metadatas[lo + k]));
      assert batch == Zip(p)[lo..hi];
      client := client[name := client[name] + batch];
    }

    /** `query_collection`: an empty collection answers with an error; otherwise the
        search asks for `min(n_results, count)` hits, which are formatted. */
    method QueryCollection(query: string, nResults: int, name: string, filter: Option<Entries>, search: Search)
      returns (result: QueryResult)
      requires Valid()
      modifies this
      ensures Valid()
      ensures client == (if name in old(client) then old(client) else old(client)[name := []])
      ensures collections == old(collections) + {name}
      ensures result == QueryOutcome(client[name], query, nResults, filter, search)
    {
      if name !in collections {
        CreateCollection(name);
      }
      var records := client[name];
      if |records| == 0 {
        return QueryResult(query, [], 0, Some(EmptyCollection));
      }
      var count := |records|;
      var raw := search(records, query, if nResults < count then nResults else count, filter);
      result := FormatResults(query, raw);
    }
  }

  /** The preparation loop of `add_documents`. */
  method PrepareLists(chunks: seq<Entries>, freshId: nat -> string) returns (r: Result<Prepared, AddError>)
    ensures r == Prepare(chunks, freshId)
  {
    var documents: seq<string> := [];
    var metadatas: seq<ChunkMetadata> := [];
    var ids: seq<string> := [];
    for i := 0 to |chunks|
      invariant Prepare(chunks[..i], freshId) == Ok(Prepared(documents, metadatas, ids))
    {
      assert chunks[..i + 1][..i] == chunks[..i];
      var chunk := chunks[i];
      var id := freshId(i);
      var content := ContentOf(chunk);
      if content.Err? {
        PrepareErrPrefix(chunks, i + 1, freshId);
        return Err(content.error);
      }
      if content.value != "" {
        var metadata := MetadataOf(chunk);
        if metadata.Err? {
          PrepareErrPrefix(chunks, i + 1, freshId);
          return Err(metadata.error);
        }
        documents := documents + [content.value];
        metadatas := metadatas + [metadata.value];
        ids := ids + [id];
      }
    }
    assert chunks[..|chunks|] == chunks;
    r := Ok(Prepared(documents, metadatas, ids));
  }

  /** A malformed chunk stops the preparation, whatever follows it. */
  lemma {:induction false} PrepareErrPrefix(chunks: seq<Entries>, i: nat, freshId: nat -> string)
    requires i <= |chunks| && Prepare(chunks[..i], freshId).Err?
    ensures Prepare(chunks, freshId) == Prepare(chunks[..i], freshId)
    decreases |chunks| - i
  {
    if i < |chunks| {
      assert chunks[..i + 1][..i] == chunks[..i];
      PrepareErrPrefix(chunks, i + 1, freshId);
    } else {
      assert chunks[..i] == chunks;
    }
  }

  /** The formatting loop of `query_collection`. */
  method FormatResults(query: string, raw: RawResults) returns (result: QueryResult)
    ensures result == Formatted(query, raw)
    ensures result.totalResults == |result.results|
  {
    if raw.documents == [] || raw.documents[0] == [] {
      return QueryResult(query, [], 0, None);
    }
    var docs := raw.documents[0];
    var hits: seq<Hit> := [];
    if FormatHits(raw, 0).Ok? {
      assert [] + FormatHits(raw, 0).value == FormatHits(raw, 0).value;
    }
    for k := 0 to |docs|
      invariant FormatHits(raw, 0) == PrependHits(hits, FormatHits(raw, k))
    {
      var hit := FormatHit(raw, k);
      if hit.Err? {
        return QueryResult(query, [], 0, Some(hit.error));
      }
      hits := hits + [hit.value];
      PrependHitsAssoc(hits[..|hits| - 1], hit.value, FormatHits(raw, k + 1));
      assert hits[..|hits| - 1] + [hit.value] == hits;
    }
    assert hits + [] == hits;
    result := QueryResult(query, hits, |hits|, None);
  }

  /** `done + r` when `r` succeeded, the failure otherwise. */
  function PrependHits(done: seq<Hit>, r: Result<seq<Hit>, string>): Result<seq<Hit>, string> {
    match r
    case Ok(v) => Ok(done + v)
    case Err(e) => Err(e)
  }

  lemma PrependHitsAssoc(done: seq<Hit>, hit: Hit, r: Result<seq<Hit>, string>)
    ensures PrependHits(done, (var rest :- r; Ok([hit] + rest))) == PrependHits(done + [hit], r)
  {
    if r.Ok? {
      assert done + ([hit] + r.value) == (done + [hit]) + r.value;
    }
  }

  /** An empty collection answers 0 results with an error, a formatted answer counts its
      hits, and with documents returned and well-formed lists there is one hit per
      document. */
  lemma QueryResultFacts(query: string, raw: RawResults)
    ensures Formatted(query, raw).totalResults == |Formatted(query, raw).results|
    ensures raw.documents != [] && FormatHits(raw, 0).Ok? ==>
      |Formatted(query, raw).results| == |raw.documents[0]|
  {
    if raw.documents != [] {
      FormatHitsFacts(raw, 0);
    }
  }
}
