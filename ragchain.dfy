/** src/core/rag_chain.py: turning extracted pages into embedded chunks, opening
    a stored collection, and the two retrieval chains. */
module RagChain {
  import opened Wrappers
  import opened PyValues
  import opened Libraries

  /** The splitter chunk_and_embed builds: 1000 characters, 200 of overlap,
      measured by len. */
  const TextSplitter := SplitterConfig(1000, 200, Len)

  /** The embedding model both ingestion and loading use. */
  const Embeddings := EmbeddingConfig("sentence-transformers/all-MiniLM-L6-v2", "cpu")

  const DefaultPersistDirectory := "./chroma_db"
  const DefaultCollection := "default_book"

  // ---------------------------------------------------------------------
  // chunk_and_embed

  /** The chunk texts of a page list: each page's split, in page order. */
  function ChunkTexts(split: (SplitterConfig, string) -> seq<string>, pages: seq<Page>): seq<string> {
    if pages == [] then []
    else ChunkTexts(split, pages[..|pages| - 1]) + split(TextSplitter, pages[|pages| - 1].text)
  }

  /** The page number each chunk came from. */
  function ChunkPages(split: (SplitterConfig, string) -> seq<string>, pages: seq<Page>): (r: seq<int>)
    ensures |r| == |ChunkTexts(split, pages)|
  {
    if pages == [] then []
    else
      var last := pages[|pages| - 1];
      ChunkPages(split, pages[..|pages| - 1]) + Repeat(last.number, |split(TextSplitter, last.text)|)
  }

  function Repeat<T>(x: T, n: nat): (r: seq<T>)
    ensures |r| == n && forall i :: 0 <= i < n ==> r[i] == x
  {
    seq(n, _ => x)
  }

  /** The metadata dict chunk_and_embed attaches to a chunk of page p. */
  function PageMetadata(p: int): (r: PyValue)
    ensures r.PyDict? && Lookup(r.entries, "page") == Some(PyInt(p))
  {
    PyDict([("page", PyInt(p))])
  }

  function Metadatas(pageNumbers: seq<int>): (r: seq<PyValue>)
    ensures |r| == |pageNumbers| && forall i :: 0 <= i < |r| ==> r[i] == PageMetadata(pageNumbers[i])
  {
    seq(|pageNumbers|, i requires 0 <= i < |pageNumbers| => PageMetadata(pageNumbers[i]))
  }

  /** The loop of chunk_and_embed: for each page, for each chunk of it, one
      text and one {"page": p} record. */
  method Flatten(split: (SplitterConfig, string) -> seq<string>, pages: seq<Page>)
    returns (texts: seq<string>, metadatas: seq<PyValue>)
    ensures texts == ChunkTexts(split, pages)
    ensures metadatas == Metadatas(ChunkPages(split, pages))
    ensures |texts| == |metadatas|
  {
    texts, metadatas := [], [];
    var n := 0;
    while n < |pages|
      invariant 0 <= n <= |pages|
      invariant texts == ChunkTexts(split, pages[..n])
      invariant metadatas == Metadatas(ChunkPages(split, pages[..n]))
    {
      var pageNum, text := pages[n].number, pages[n].text;
      var chunks := split(TextSplitter, text);
      ghost var pagesBefore := ChunkPages(split, pages[..n]);
      var j := 0;
      while j < |chunks|
        invariant 0 <= j <= |chunks|
        invariant texts == ChunkTexts(split, pages[..n]) + chunks[..j]
        invariant metadatas == Metadatas(pagesBefore + Repeat(pageNum, j))
      {
        texts := texts + [chunks[j]];
        metadatas := metadatas + [PageMetadata(pageNum)];
        assert chunks[..j + 1] == chunks[..j] + [chunks[j]];
        assert pagesBefore + Repeat(pageNum, j + 1) == (pagesBefore + Repeat(pageNum, j)) + [pageNum];
        j := j + 1;
      }
      assert pages[..n + 1][..n] == pages[..n];
      assert chunks[..j] == chunks;
      n := n + 1;
    }
    assert pages[..n] == pages;
  }

  /** The records of two page lists are those of each, in order: so the
      output follows page order and, within a page, splitter order. */
  lemma {:induction false} ChunkTextsConcat(split: (SplitterConfig, string) -> seq<string>, a: seq<Page>, b: seq<Page>)
    ensures ChunkTexts(split, a + b) == ChunkTexts(split, a) + ChunkTexts(split, b)
    decreases |b|
  {
    if b == [] {
      assert a + b == a;
    } else {
      var b' := b[..|b| - 1];
      assert (a + b)[..|a + b| - 1] == a + b';
      assert (a + b)[|a + b| - 1] == b[|b| - 1];
      ChunkTextsConcat(split, a, b');
    }
  }

  /** The page numbers of two page lists are those of each, in order. */
  lemma {:induction false} ChunkPagesConcat(split: (SplitterConfig, string) -> seq<string>, a: seq<Page>, b: seq<Page>)
    ensures ChunkPages(split, a + b) == ChunkPages(split, a) + ChunkPages(split, b)
    decreases |b|
  {
    if b == [] {
      assert a + b == a;
    } else {
      var b' := b[..|b| - 1];
      assert (a + b)[..|a + b| - 1] == a + b';
      assert (a + b)[|a + b| - 1] == b[|b| - 1];
      ChunkPagesConcat(split, a, b');
    }
  }

  /** One page yields exactly its split, every chunk tagged with its number. */
  lemma SinglePageChunks(split: (SplitterConfig, string) -> seq<string>, p: Page)
    ensures ChunkTexts(split, [p]) == split(TextSplitter, p.text)
    ensures ChunkPages(split, [p]) == Repeat(p.number, |split(TextSplitter, p.text)|)
  {
    assert [p][..0] == [];
  }

  /** Provenance: chunk i is a chunk of one page, and its metadata carries
      that page's number. */
  lemma {:induction false} ChunkProvenance(split: (SplitterConfig, string) -> seq<string>, pages: seq<Page>, i: int)
    requires 0 <= i < |ChunkTexts(split, pages)|
    ensures exists j, q ::
      (&& 0 <= j < |pages| && 0 <= q < |split(TextSplitter, pages[j].text)|
       && ChunkTexts(split, pages)[i] == split(TextSplitter, pages[j].text)[q]
       && ChunkPages(split, pages)[i] == pages[j].number)
  {
    var front := pages[..|pages| - 1];
    var last := pages[|pages| - 1];
    if i < |ChunkTexts(split, front)| {
      ChunkProvenance(split, front, i);
      var j, q :| 0 <= j < |front| && 0 <= q < |split(TextSplitter, front[j].text)|
        && ChunkTexts(split, front)[i] == split(TextSplitter, front[j].text)[q]
        && ChunkPages(split, front)[i] == front[j].number;
      assert front[j] == pages[j];
    } else {
      var q := i - |ChunkTexts(split, front)|;
      assert ChunkTexts(split, pages)[i] == split(TextSplitter, last.text)[q];
      assert ChunkPages(split, pages)[i] == last.number;
    }
  }

  /** The record count is the sum of the per-page chunk counts. */
  function ChunkCount(split: (SplitterConfig, string) -> seq<string>, pages: seq<Page>): nat {
    if pages == [] then 0 else |split(TextSplitter, pages[0].text)| + ChunkCount(split, pages[1..])
  }

  lemma {:induction false} ChunkCountIsSum(split: (SplitterConfig, string) -> seq<string>, pages: seq<Page>)
    ensures |ChunkTexts(split, pages)| == ChunkCount(split, pages)
  {
    if pages != [] {
      ChunkCountIsSum(split, pages[1..]);
      ChunkTextsConcat(split, [pages[0]], pages[1..]);
      assert [pages[0]] + pages[1..] == pages;
      SinglePageChunks(split, pages[0]);
    }
  }

  /** chunk_and_embed: the flattened texts and metadata go to Chroma.from_texts
      with the fixed embedding model; whatever it returns or raises is the
      result. An empty page list sends no texts. */
  method ChunkAndEmbed(services: Services, pages: seq<Page>,
                       persistDirectory: string := DefaultPersistDirectory,
                       collectionName: string := DefaultCollection)
    returns (r: Outcome<VectorStore>)
    ensures r == services.fromTexts(ChunkTexts(services.split, pages), Metadatas(ChunkPages(services.split, pages)),
                                    Embeddings, persistDirectory, collectionName)
  {
    var texts, metadatas := Flatten(services.split, pages);
    r := services.fromTexts(texts, metadatas, Embeddings, persistDirectory, collectionName);
  }

  // ---------------------------------------------------------------------
  // load_existing_vector_store

  /** Opening a collection never raises to the caller: any exception becomes None. */
  function LoadExistingVectorStore(services: Services,
                                   persistDirectory: string := DefaultPersistDirectory,
                                   collectionName: string := DefaultCollection): (r: Option<VectorStore>)
    ensures r.None? <==> services.openStore(persistDirectory, collectionName, Embeddings).Raised?
    ensures r.Some? ==> Ok(r.value) == services.openStore(persistDirectory, collectionName, Embeddings)
  {
    match services.openStore(persistDirectory, collectionName, Embeddings)
    case Ok(store) => Some(store)
    case Raised(_) => None
  }

  // ---------------------------------------------------------------------
  // The chains

  /** The text of each prompt template. */
  function TemplateText(name: TemplateName): string {
    match name
    case QaTemplate =>
      "You are a helpful assistant that answers questions about a book based on the provided context.\n\nContext: {context}\n\nQuestion: {question}\n\nPlease provide a comprehensive answer based only on the information in the context. If the context doesn't contain enough information to answer the question, say so.\n\nAnswer:"
    case SummaryTemplate =>
      "Based on the following context from a book, provide a comprehensive summary including:\n\n1. Main themes and topics\n2. Key concepts and ideas\n3. Important characters or subjects (if applicable)\n4. Overall structure and organization\n\nContext: {context}\n\nPlease provide a detailed summary:"
  }

  /** The fixed query of the summary thunk. */
  const SummaryQuery := "Generate a comprehensive summary of this book"

  /** A retriever over a store: similarity search for the k nearest chunks. */
  datatype Retriever = Retriever(store: VectorStore, k: nat)

  /** RetrievalQA.from_chain_type(...). */
  datatype RetrievalQa = RetrievalQa(llm: Llm, chainType: string, retriever: Retriever,
                                     prompt: PromptTemplate, returnSourceDocuments: bool)

  /** The lambda get_summary_chain returns: the chain and the one query it issues. */
  datatype SummaryThunk = SummaryThunk(chain: RetrievalQa, query: string)

  function GetOllamaLlm(modelName: string := "llama2"): Llm {
    Ollama(modelName)
  }

  function GetQaChain(store: VectorStore, llm: Llm): RetrievalQa {
    RetrievalQa(llm, "stuff", Retriever(store, 5), PromptTemplate(QaTemplate, ["context", "question"]), true)
  }

  function GetSummaryChain(store: VectorStore, llm: Llm): SummaryThunk {
    SummaryThunk(
      RetrievalQa(llm, "stuff", Retriever(store, 20), PromptTemplate(SummaryTemplate, ["context"]), false),
      SummaryQuery)
  }

  /** chain.invoke({"query": q}): retrieve k documents for q, have the model
      answer from them, and return RetrievalQA's output dict: "query",
      "result" and, when the chain returns sources, "source_documents". */
  function InvokeChain(services: Services, chain: RetrievalQa, query: string): (r: Outcome<PyValue>)
    ensures r.Ok? <==>
      (&& services.search(chain.retriever.store, query, chain.retriever.k).Ok?
       && services.generate(chain.llm, chain.prompt, services.search(chain.retriever.store, query, chain.retriever.k).value, query).Ok?)
    ensures r.Ok? ==> var docs := services.search(chain.retriever.store, query, chain.retriever.k).value;
      && r.value.PyDict?
      && Lookup(r.value.entries, "query") == Some(PyStr(query))
      && Lookup(r.value.entries, "result") == Some(PyStr(services.generate(chain.llm, chain.prompt, docs, query).value))
      && Lookup(r.value.entries, "source_documents") == if chain.returnSourceDocuments then Some(PyList(DocumentValues(docs))) else None
  {
    match services.search(chain.retriever.store, query, chain.retriever.k)
    case Raised(e) => Raised(e)
    case Ok(docs) =>
      match services.generate(chain.llm, chain.prompt, docs, query)
      case Raised(e) => Raised(e)
      case Ok(answer) =>
        var sources := if chain.returnSourceDocuments then [("source_documents", PyList(DocumentValues(docs)))] else [];
        var entries := [("query", PyStr(query)), ("result", PyStr(answer))] + sources;
        assert entries[1..] == [("result", PyStr(answer))] + sources && entries[1..][1..] == sources;
        assert sources != [] ==> sources[1..] == [];
        assert Lookup(entries, "source_documents") == Lookup(sources, "source_documents");
        Ok(PyDict(entries))
  }

  /** summary_chain(): always the same query against the summary chain. */
  function InvokeSummary(services: Services, thunk: SummaryThunk): Outcome<PyValue> {
    InvokeChain(services, thunk.chain, thunk.query)
  }

  /** Question answering retrieves five chunks and returns them as sources;
      summarising retrieves twenty, returns none, and always asks the fixed
      summary query, whatever the store or the model. */
  lemma ChainParameters(store: VectorStore, llm: Llm)
    ensures GetQaChain(store, llm).retriever == Retriever(store, 5)
    ensures GetQaChain(store, llm).returnSourceDocuments && GetQaChain(store, llm).chainType == "stuff"
    ensures GetSummaryChain(store, llm).chain.retriever == Retriever(store, 20)
    ensures !GetSummaryChain(store, llm).chain.returnSourceDocuments
    ensures GetSummaryChain(store, llm).query == SummaryQuery
    ensures GetQaChain(store, llm).prompt == PromptTemplate(QaTemplate, ["context", "question"])
    ensures GetSummaryChain(store, llm).chain.prompt == PromptTemplate(SummaryTemplate, ["context"])
    ensures GetOllamaLlm() == Ollama("llama2")
  {
  }

  /** The answer of a question-answering call carries the retrieved documents
      under "source_documents"; a summary carries none. */
  lemma ResponseSources(services: Services, store: VectorStore, llm: Llm, question: string)
    ensures var r := InvokeChain(services, GetQaChain(store, llm), question);
      r.Ok? ==> Lookup(r.value.entries, "source_documents") == Some(PyList(DocumentValues(services.search(store, question, 5).value)))
    ensures var r := InvokeSummary(services, GetSummaryChain(store, llm));
      r.Ok? ==> Lookup(r.value.entries, "source_documents") == None
  {
  }
}
