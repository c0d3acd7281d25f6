/** src/core/app.py: the two handlers that run after the page is drawn, one
    for a pending chat question and one for a requested summary. Each checks
    the session flags, then the book, its collection and a one-result probe,
    before it calls a chain and writes to the store. */
module App {
  import opened Wrappers
  import opened PyValues
  import opened Libraries
  import opened RagChain
  import opened Database
  import opened Session
  import SummaryTab

  // ---------------------------------------------------------------------
  // Reading a question-answering response

  /** `response['result'] if 'result' in response else str(response)`. */
  function AnswerOf(response: PyValue): (r: Outcome<PyValue>)
    ensures response.PyDict? && Lookup(response.entries, "result").Some? ==> r == Ok(Lookup(response.entries, "result").value)
    ensures response.PyDict? && Lookup(response.entries, "result").None? ==> r == Ok(PyStr(Str(response)))
  {
    match In("result", response)
    case Raised(e) => Raised(e)
    case Ok(found) => if found then GetItem(response, "result") else Ok(PyStr(Str(response)))
  }

  /** The metadata of each document that has a metadata attribute, in order. */
  function MetadataOf(docs: seq<PyValue>): (r: seq<PyValue>)
    ensures |r| <= |docs|
  {
    if docs == [] then []
    else
      (match GetAttr(docs[0], "metadata") case Some(m) => [m] case None => [])
      + MetadataOf(docs[1..])
  }

  /** The sources as written: `hasattr(response, 'source_documents')`, then
      each document's metadata. */
  function ChatSourcesAsWritten(response: PyValue): seq<PyValue> {
    match GetAttr(response, "source_documents")
    case Some(PyList(docs)) => MetadataOf(docs)
    case _ => []
  }

  /** The sources as intended: the documents under the response's
      "source_documents" key, then each document's metadata. */
  function ChatSources(response: PyValue): seq<PyValue> {
    if !response.PyDict? then []
    else match Lookup(response.entries, "source_documents")
      case Some(PyList(docs)) => MetadataOf(docs)
      case _ => []
  }

  lemma MetadataOfFirstDocument(docs: seq<Document>)
    requires docs != []
    ensures MetadataOf(DocumentValues(docs)) == [PyDict(docs[0].metadata)] + MetadataOf(DocumentValues(docs[1..]))
  {
    var values := DocumentValues(docs);
    assert values[0] == DocumentValue(docs[0]);
    assert values[1..] == DocumentValues(docs[1..]);
  }

  /** Documents as Python objects yield their metadata dicts, one per document, in order. */
  lemma {:induction false} MetadataOfDocuments(docs: seq<Document>)
    ensures var r := MetadataOf(DocumentValues(docs));
      |r| == |docs| && forall i :: 0 <= i < |docs| ==> r[i] == PyDict(docs[i].metadata)
  {
    if docs != [] {
      MetadataOfDocuments(docs[1..]);
      MetadataOfFirstDocument(docs);
      var tail := MetadataOf(DocumentValues(docs[1..]));
      var r := MetadataOf(DocumentValues(docs));
      forall i | 0 < i < |docs|
        ensures r[i] == PyDict(docs[i].metadata)
      {
        assert r[i] == tail[i - 1] && docs[1..][i - 1] == docs[i];
      }
    }
  }

  /** The answer recorded for a question is the model's completion. */
  lemma QaAnswerIsCompletion(services: Services, store: VectorStore, llm: Llm, question: string)
    requires InvokeChain(services, GetQaChain(store, llm), question).Ok?
    ensures var chain := GetQaChain(store, llm);
      var docs := services.search(store, question, 5).value;
      AnswerOf(InvokeChain(services, chain, question).value) == Ok(PyStr(services.generate(chain.llm, chain.prompt, docs, question).value))
  {
  }

  /** As written, no source is ever collected: a chain's response is a dict,
      and a dict has no attribute source_documents, even when the chain
      retrieved documents. */
  lemma SourcesAsWrittenAreLost(services: Services, store: VectorStore, llm: Llm, question: string)
    requires InvokeChain(services, GetQaChain(store, llm), question).Ok?
    ensures ChatSourcesAsWritten(InvokeChain(services, GetQaChain(store, llm), question).value) == []
  {
  }

  /** As intended, the sources are the metadata of the five retrieved
      documents, one entry per document in retrieval order. */
  lemma SourcesAreRetrievedMetadata(services: Services, store: VectorStore, llm: Llm, question: string)
    requires InvokeChain(services, GetQaChain(store, llm), question).Ok?
    ensures var docs := services.search(store, question, 5).value;
      var sources := ChatSources(InvokeChain(services, GetQaChain(store, llm), question).value);
      |sources| == |docs| && forall i :: 0 <= i < |docs| ==> sources[i] == PyDict(docs[i].metadata)
  {
    MetadataOfDocuments(services.search(store, question, 5).value);
  }

  /** The sources argument as written: `json.dumps(sources) if sources else None`. */
  function SourcesArgumentAsWritten(sources: seq<PyValue>): Outcome<PyValue> {
    if sources == [] then Ok(PyNone)
    else match Dumps(PyList(sources))
      case Ok(text) => Ok(PyStr(text))
      case Raised(e) => Raised(e)
  }

  /** The sources argument as intended: the list itself, which
      add_chat_history encodes once. */
  function SourcesArgument(sources: seq<PyValue>): PyValue {
    if sources == [] then PyNone else PyList(sources)
  }

  /** As written, the column holds a JSON string whose content is the JSON
      list: its text starts with '"', so json.loads gives back a str and the
      history views cannot read a page from it. */
  lemma SourcesAsWrittenEncodedTwice(question: string, answer: string, sources: seq<PyValue>)
    requires sources != [] && Dumps(PyList(sources)).Ok?
    ensures var arg := SourcesArgumentAsWritten(sources).value;
      var stored := EncodeChat(PyStr(question), PyStr(answer), arg);
      && stored.Ok?
      && stored.value.sources == Some(JsonQuote(Dumps(PyList(sources)).value))
      && stored.value.sources.value[0] == '"'
  {
  }

  /** As intended, the column holds json.dumps(sources), a JSON list, and NULL
      when there are no sources. */
  lemma SourcesStoredOnce(question: string, answer: string, sources: seq<PyValue>)
    requires Dumps(PyList(sources)).Ok?
    ensures var stored := EncodeChat(PyStr(question), PyStr(answer), SourcesArgument(sources));
      && stored.Ok?
      && stored.value.sources == (if sources == [] then None else Some(Dumps(PyList(sources)).value))
      && (sources != [] ==> stored.value.sources.value[0] == '[')
  {
    if sources != [] {
      DumpsFirstChar(PyList(sources));
    }
  }

  // ---------------------------------------------------------------------
  // handle_chat_interaction

  /** How far a chat question got before the commit. */
  datatype ChatAttempt =
    | BookNotFound
    | StoreMissing
    | StoreEmpty
    | Answered(answer: PyValue, sourcesArgument: PyValue)
    | Failed(error: string)

  /** Find the book, open its collection, probe it with one search for
      "test", and only then ask the question-answering chain. The sources
      are collected and encoded as written (ChatSourcesAsWritten,
      SourcesArgumentAsWritten); an exception on the way is a failure. */
  function AttemptChat(services: Services, info: Option<BookInfo>, question: string): ChatAttempt {
    match info
    case None => BookNotFound
    case Some(book) =>
      match LoadExistingVectorStore(services, DefaultPersistDirectory, book.collectionName)
      case None => StoreMissing
      case Some(store) =>
        match services.search(store, "test", 1)
        case Raised(e) => Failed(e)
        case Ok(probe) =>
          if probe == [] then StoreEmpty
          else
            match InvokeChain(services, GetQaChain(store, GetOllamaLlm()), question)
            case Raised(e) => Failed(e)
            case Ok(response) =>
              var sources := ChatSourcesAsWritten(response);
              match AnswerOf(response)
              case Raised(e) => Failed(e)
              case Ok(answer) =>
                match SourcesArgumentAsWritten(sources)
                case Raised(e) => Failed(e)
                case Ok(argument) => Answered(answer, argument)
  }

  /** A missing book, a store that does not open and an empty probe all stop
      the request before the model is asked anything: the outcome is the same
      whatever the model would have answered. */
  lemma ChatStopsBeforeModel(services: Services, info: Option<BookInfo>, question: string,
                             generate: (Llm, PromptTemplate, seq<Document>, string) -> Outcome<string>)
    requires AttemptChat(services, info, question) in {BookNotFound, StoreMissing, StoreEmpty}
    ensures AttemptChat(services.(generate := generate), info, question) == AttemptChat(services, info, question)
  {
  }

  /** When the model answers, the attempt carries its completion and, as
      written, no sources: the turn binds as the question, the completion
      and a NULL sources column, whatever the chain retrieved. */
  lemma {:induction false} ChatAnswerCarriesCompletion(services: Services, book: BookInfo, question: string)
    requires AttemptChat(services, Some(book), question).Answered?
    ensures var store := services.openStore(DefaultPersistDirectory, book.collectionName, Embeddings).value;
      var chain := GetQaChain(store, GetOllamaLlm());
      var docs := services.search(store, question, 5).value;
      var text := services.generate(chain.llm, chain.prompt, docs, question).value;
      var attempt := AttemptChat(services, Some(book), question);
      && attempt.answer == PyStr(text)
      && attempt.sourcesArgument == PyNone
      && EncodeChat(PyStr(question), attempt.answer, attempt.sourcesArgument) == Ok(ChatFields(question, text, None))
  {
    var store := services.openStore(DefaultPersistDirectory, book.collectionName, Embeddings).value;
    QaAnswerIsCompletion(services, store, GetOllamaLlm(), question);
    SourcesAsWrittenAreLost(services, store, GetOllamaLlm(), question);
  }

  /** handle_chat_interaction. Nothing happens without a non-empty pending
      question and a selected book. Otherwise the attempt decides the rest
      (CommitChat); an answered question is stored with its completion and
      sources NULL. */
  method HandleChatInteraction(session: SessionState, db: BookDatabase, services: Services, now: int)
    returns (attempt: Option<ChatAttempt>)
    requires db.Valid() && db.clock <= now
    modifies session, db
    ensures db.Valid()
    ensures !(old(session.ChatRequested()) && old(session.BookSelected())) ==>
      attempt == None && unchanged(session) && unchanged(db)
    ensures old(session.ChatRequested()) && old(session.BookSelected()) ==>
      var question := old(session.pendingQuestion).value;
      var bookId := old(session.currentBookId).value;
      && attempt == Some(AttemptChat(services, old(db.GetBookById(bookId)), question))
      && ChatCommitted(old(session.Snap()), session.Snap(), old(db.books), db.books, old(db.chatHistory), db.chatHistory,
                       bookId, question, attempt.value, now)
      && db.summaries == old(db.summaries) && db.nextBookId == old(db.nextBookId)
    ensures old(session.ChatRequested()) && old(session.BookSelected()) && attempt.Some? && attempt.value.Answered? ==>
      var question := old(session.pendingQuestion).value;
      var bookId := old(session.currentBookId).value;
      && attempt.value.answer.PyStr?
      && db.chatHistory == old(db.chatHistory) + [ChatRow(bookId, question, attempt.value.answer.s, None, now)]
      && db.books == Touch(old(db.books), bookId, now)
  {
    if !(session.ChatRequested() && session.BookSelected()) {
      return None;
    }
    var question := session.pendingQuestion.value;
    var bookId := session.currentBookId.value;
    var info := db.GetBookById(bookId);
    var a := AttemptChat(services, info, question);
    attempt := Some(a);
    if a.Answered? {
      ChatAnswerCarriesCompletion(services, info.value, question);
    }
    CommitChat(session, db, bookId, question, a, now);
  }

  /** The end state of an attempted chat question. chat_loading ends False on
      every path. A missing book, store or content keeps the question pending
      and writes nothing; an exception drops the question and writes nothing;
      an answer appends exactly one turn for the book, touches the book and
      drops the question. */
  ghost predicate ChatCommitted(before: Snapshot, after: Snapshot,
                                booksBefore: seq<BookRow>, booksAfter: seq<BookRow>,
                                chatsBefore: seq<ChatRow>, chatsAfter: seq<ChatRow>,
                                bookId: int, question: string, attempt: ChatAttempt, now: int)
  {
    match attempt
    case Answered(answer, argument) =>
      && after == before.(chatLoading := false, pendingQuestion := None)
      && (match EncodeChat(PyStr(question), answer, argument)
          case Ok(f) =>
            && chatsAfter == chatsBefore + [ChatRow(bookId, f.question, f.answer, f.sources, now)]
            && booksAfter == Touch(booksBefore, bookId, now)
          case Raised(_) => chatsAfter == chatsBefore && booksAfter == booksBefore)
    case Failed(_) =>
      after == before.(chatLoading := false, pendingQuestion := None) && chatsAfter == chatsBefore && booksAfter == booksBefore
    case _ =>
      after == before.(chatLoading := false) && chatsAfter == chatsBefore && booksAfter == booksBefore
  }

  method CommitChat(session: SessionState, db: BookDatabase, bookId: int, question: string, attempt: ChatAttempt, now: int)
    requires db.Valid() && db.clock <= now
    modifies session, db
    ensures db.Valid()
    ensures ChatCommitted(old(session.Snap()), session.Snap(), old(db.books), db.books, old(db.chatHistory), db.chatHistory,
                          bookId, question, attempt, now)
    ensures db.summaries == old(db.summaries) && db.nextBookId == old(db.nextBookId)
    ensures !attempt.Answered? ==> unchanged(db)
  {
    match attempt
    case Answered(answer, argument) =>
      var stored := db.AddChatHistory(now, bookId, PyStr(question), answer, argument);
      if stored.Ok? {
        db.UpdateLastAccessed(now, bookId);
      }
      session.pendingQuestion := None;
      session.chatLoading := false;
    case Failed(_) =>
      session.pendingQuestion := None;
      session.chatLoading := false;
    case _ =>
      session.chatLoading := false;
  }

  // ---------------------------------------------------------------------
  // handle_summary_generation

  /** The value handed to add_summary as written: the chain's whole result. */
  function SummaryToStoreAsWritten(response: PyValue): PyValue {
    response
  }

  /** The value handed to add_summary as intended: the extracted text, as the
      summary tab and the upload path do. */
  function SummaryToStore(response: PyValue): PyValue {
    SummaryTab.ExtractSummary(response)
  }

  /** As written, every result of the summary chain is a non-empty dict: it
      passes `if summary:`, and binding it to the summary column raises, so
      no summary is ever stored this way and the request ends in the
      exception branch. */
  lemma SummaryAsWrittenNeverStored(services: Services, store: VectorStore, llm: Llm)
    requires InvokeSummary(services, GetSummaryChain(store, llm)).Ok?
    ensures var response := InvokeSummary(services, GetSummaryChain(store, llm)).value;
      Truthy(SummaryToStoreAsWritten(response)) && BindText(SummaryToStoreAsWritten(response)).Raised?
  {
  }

  /** As intended, the stored text is exactly the model's completion, and an
      empty completion is not stored. */
  lemma SummaryStoredAsCompletion(services: Services, store: VectorStore, llm: Llm)
    requires InvokeSummary(services, GetSummaryChain(store, llm)).Ok?
    ensures var chain := GetSummaryChain(store, llm).chain;
      var text := services.generate(chain.llm, chain.prompt, services.search(store, SummaryQuery, 20).value, SummaryQuery).value;
      var value := SummaryToStore(InvokeSummary(services, GetSummaryChain(store, llm)).value);
      && (Truthy(value) <==> text != "")
      && BindText(value) == Ok(text)
  {
    SummaryTab.ExtractedSummaryIsCompletion(services, store, llm);
  }

  /** A missing book, a store that does not open and an empty probe stop the
      summary request before the model is asked anything. */
  lemma SummaryStopsBeforeModel(services: Services, info: Option<BookInfo>,
                                generate: (Llm, PromptTemplate, seq<Document>, string) -> Outcome<string>)
    requires SummaryTab.AttemptSummary(services, info) in {SummaryTab.BookNotFound, SummaryTab.StoreMissing, SummaryTab.StoreEmpty}
    ensures SummaryTab.AttemptSummary(services.(generate := generate), info) == SummaryTab.AttemptSummary(services, info)
  {
  }

  /** A response of the summary chain, as the handler gets it, passes
      `if summary:` and fails to bind as the summary text. */
  lemma RespondedSummaryNeverStored(services: Services, info: Option<BookInfo>)
    requires SummaryTab.AttemptSummary(services, info).Responded?
    ensures var response := SummaryTab.AttemptSummary(services, info).response;
      Truthy(SummaryToStoreAsWritten(response)) && BindText(SummaryToStoreAsWritten(response)).Raised?
  {
    var store := services.openStore(DefaultPersistDirectory, info.value.collectionName, Embeddings).value;
    SummaryAsWrittenNeverStored(services, store, GetOllamaLlm());
  }

  /** handle_summary_generation. Nothing happens without the generate_summary
      flag and a selected book. A missing book, store or content stores
      nothing and keeps the flag; an exception stores nothing and clears the
      flag. A response of the chain is handed to add_summary whole, which
      raises, so it too stores nothing and clears the flag. */
  method HandleSummaryGeneration(session: SessionState, db: BookDatabase, services: Services, now: int)
    returns (attempt: Option<SummaryTab.SummaryAttempt>)
    requires db.Valid() && db.clock <= now
    modifies session, db
    ensures db.Valid()
    ensures db.books == old(db.books) && db.chatHistory == old(db.chatHistory) && db.nextBookId == old(db.nextBookId)
    ensures !(old(session.generateSummary) && old(session.BookSelected())) ==>
      attempt == None && unchanged(session) && unchanged(db)
    ensures old(session.generateSummary) && old(session.BookSelected()) ==>
      var bookId := old(session.currentBookId).value;
      && attempt == Some(SummaryTab.AttemptSummary(services, old(db.GetBookById(bookId))))
      && match attempt.value
        case Responded(_) =>
          && session.Snap() == old(session.Snap()).(generateSummary := false)
          && db.summaries == old(db.summaries) && db.clock == old(db.clock)
        case Failed(_) =>
          session.Snap() == old(session.Snap()).(generateSummary := false) && unchanged(db)
        case _ => unchanged(session) && unchanged(db)
  {
    if !(session.generateSummary && session.BookSelected()) {
      return None;
    }
    var bookId := session.currentBookId.value;
    var info := db.GetBookById(bookId);
    var a := SummaryTab.AttemptSummary(services, info);
    attempt := Some(a);
    match a
    case Responded(response) =>
      RespondedSummaryNeverStored(services, info);
      StoreGeneratedSummary(session, db, response, bookId, now);
    case Failed(_) =>
      session.generateSummary := false;
    case _ =>
  }

  /** The branch of the summary handler after the chain returns: a falsy
      result leaves the flag and the store as they were; a truthy one is
      handed to add_summary as it is, and the flag is cleared whether the
      insert succeeds or raises (then by the except branch). */
  method StoreGeneratedSummary(session: SessionState, db: BookDatabase, response: PyValue, bookId: int, now: int)
    requires db.Valid() && db.clock <= now
    modifies session, db
    ensures db.Valid()
    ensures db.books == old(db.books) && db.chatHistory == old(db.chatHistory) && db.nextBookId == old(db.nextBookId)
    ensures var summary := SummaryToStoreAsWritten(response);
      if !Truthy(summary) then unchanged(session) && unchanged(db)
      else
        && session.Snap() == old(session.Snap()).(generateSummary := false)
        && (match BindText(summary)
            case Ok(text) => db.summaries == old(db.summaries) + [SummaryRow(bookId, text, now)]
            case Raised(_) => db.summaries == old(db.summaries) && db.clock == old(db.clock))
  {
    var summary := SummaryToStoreAsWritten(response);
    if Truthy(summary) {
      var stored := db.AddSummary(now, bookId, summary);
      session.generateSummary := false;
    }
  }
}
