/** The foreign code the core calls and cannot see (LangChain's text splitter
    and RetrievalQA, Chroma, HuggingFace embeddings, Ollama, the PDF
    extractor, the file system), reduced to the values that cross the call
    boundary and to one record, Services, of functions that may raise. */
module Libraries {
  import opened Wrappers
  import opened PyValues

  /** One extracted page: its 1-based number and its text. */
  datatype Page = Page(number: int, text: string)

  /** A file handed over by the upload widget. */
  datatype UploadedFile = UploadedFile(name: string, data: seq<int>)

  /** How RecursiveCharacterTextSplitter measures a chunk. */
  datatype LengthFunction = Len

  datatype SplitterConfig = SplitterConfig(chunkSize: nat, chunkOverlap: nat, lengthFunction: LengthFunction)

  datatype EmbeddingConfig = EmbeddingConfig(modelName: string, device: string)

  /** A handle on a Chroma collection. */
  datatype VectorStore = VectorStore(persistDirectory: string, collectionName: string, embedding: EmbeddingConfig)

  /** A retrieved LangChain Document. */
  datatype Document = Document(pageContent: string, metadata: seq<(string, PyValue)>)

  datatype Llm = Ollama(model: string)

  /** The two prompts the chains are built with; RagChain.TemplateText gives their text. */
  datatype TemplateName = QaTemplate | SummaryTemplate

  /** A PromptTemplate, by the template it was made from and its input variables. */
  datatype PromptTemplate = PromptTemplate(name: TemplateName, inputVariables: seq<string>)

  /** The library calls, as functions of their arguments. */
  datatype Services = Services(
    /** split_text of a splitter built with that configuration. */
    split: (SplitterConfig, string) -> seq<string>,
    /** Chroma.from_texts(texts, embedding, metadatas, persist_directory, collection_name). */
    fromTexts: (seq<string>, seq<PyValue>, EmbeddingConfig, string, string) -> Outcome<VectorStore>,
    /** Chroma(persist_directory, collection_name, embedding_function). */
    openStore: (string, string, EmbeddingConfig) -> Outcome<VectorStore>,
    /** store.similarity_search(query, k). */
    search: (VectorStore, string, nat) -> Outcome<seq<Document>>,
    /** The "stuff" documents chain: the prompt filled with the documents and
        the question, sent to the model; its completion. */
    generate: (Llm, PromptTemplate, seq<Document>, string) -> Outcome<string>,
    /** extract_text_from_pdf(path); it catches every error itself. */
    extract: string -> seq<Page>,
    /** Writing the uploaded bytes to path. */
    save: (string, UploadedFile) -> Outcome<()>)

  /** A Document as a Python object: attributes page_content and metadata. */
  function DocumentValue(d: Document): (r: PyValue)
    ensures r.PyObject? && GetAttr(r, "metadata") == Some(PyDict(d.metadata))
    ensures GetAttr(r, "page_content") == Some(PyStr(d.pageContent))
  {
    var attributes := [("page_content", PyStr(d.pageContent)), ("metadata", PyDict(d.metadata))];
    assert Lookup(attributes, "metadata") == Lookup(attributes[1..], "metadata");
    PyObject("Document", attributes,
      "page_content=" + QuoteRepr(d.pageContent) + " metadata=" + Repr(PyDict(d.metadata)))
  }

  function DocumentValues(docs: seq<Document>): (r: seq<PyValue>)
    ensures |r| == |docs| && forall i :: 0 <= i < |docs| ==> r[i] == DocumentValue(docs[i])
  {
    seq(|docs|, i requires 0 <= i < |docs| => DocumentValue(docs[i]))
  }
}
