/** Summary generation as the summary tab does it (generate_summary_for_book in
    src/ui/main_ui.py), and the steps it shares with the summary handler and
    with automatic summarising after an upload. */
module SummaryTab {
  import opened Wrappers
  import opened PyValues
  import opened Libraries
  import opened RagChain
  import opened Database

  /** How far a summary request got before its result is used. */
  datatype SummaryAttempt =
    | BookNotFound
    | StoreMissing
    | StoreEmpty
    | Responded(response: PyValue)
    | Failed(error: string)

  /** Find the book, open its collection, probe it with one search for
      "test", and only then call the summary chain. */
  function AttemptSummary(services: Services, info: Option<BookInfo>): SummaryAttempt {
    match info
    case None => BookNotFound
    case Some(book) =>
      match LoadExistingVectorStore(services, DefaultPersistDirectory, book.collectionName)
      case None => StoreMissing
      case Some(store) =>
        match services.search(store, "test", 1)
        case Raised(e) => Failed(e)
        case Ok(probe) =>
          if probe == [] then StoreEmpty
          else
            match InvokeSummary(services, GetSummaryChain(store, GetOllamaLlm()))
            case Raised(e) => Failed(e)
            case Ok(response) => Responded(response)
  }

  /** The summary text of a chain result: its "result" item when it is a dict
      that has one, otherwise its str(). */
  function ExtractSummary(result: PyValue): (r: PyValue)
    ensures result.PyDict? && Lookup(result.entries, "result").Some? ==> r == Lookup(result.entries, "result").value
    ensures !(result.PyDict? && Lookup(result.entries, "result").Some?) ==> r == PyStr(Str(result))
  {
    if result.PyDict? && In("result", result) == Ok(true) then GetItem(result, "result").value
    else PyStr(Str(result))
  }

  /** What a summary chain returns extracts to exactly the model's completion,
      so it is stored exactly when the completion is not empty. */
  lemma {:induction false} ExtractedSummaryIsCompletion(services: Services, store: VectorStore, llm: Llm)
    requires InvokeSummary(services, GetSummaryChain(store, llm)).Ok?
    ensures var chain := GetSummaryChain(store, llm).chain;
      var docs := services.search(store, SummaryQuery, 20).value;
      var text := services.generate(chain.llm, chain.prompt, docs, SummaryQuery).value;
      && ExtractSummary(InvokeSummary(services, GetSummaryChain(store, llm)).value) == PyStr(text)
      && (Truthy(PyStr(text)) <==> text != "")
      && BindText(PyStr(text)) == Ok(text)
  {
    var response := InvokeSummary(services, GetSummaryChain(store, llm)).value;
    assert response.PyDict? && Lookup(response.entries, "result").Some?;
  }

  /** A result that is neither a dict nor a foreign object is rejected by
      `if summary:` only when it is the empty string: the str() of None, of
      an int or of a list is never empty. */
  lemma NonDictResultIsItsText(result: PyValue)
    requires !result.PyDict? && !result.PyObject?
    ensures Truthy(ExtractSummary(result)) <==> !(result.PyStr? && result.s == "")
  {
    if !result.PyStr? {
      StrOfContainerNonEmpty(result);
    }
  }

  /** generate_summary_for_book(book_id): (True, summary) after storing a
      non-empty summary, (False, reason) otherwise. Only the success path
      writes to the store. */
  method GenerateSummaryForBook(db: BookDatabase, services: Services, bookId: int, now: int)
    returns (success: bool, result: PyValue)
    requires db.Valid() && db.clock <= now
    modifies db
    ensures db.Valid()
    ensures db.books == old(db.books) && db.chatHistory == old(db.chatHistory) && db.nextBookId == old(db.nextBookId)
    ensures success <==> |db.summaries| == |old(db.summaries)| + 1
    ensures match AttemptSummary(services, old(db.GetBookById(bookId)))
      case BookNotFound => !success && result == PyStr("Book not found") && unchanged(db)
      case StoreMissing => !success && result == PyStr("Could not load vector store") && unchanged(db)
      case StoreEmpty => !success && result == PyStr("Vector store is empty") && unchanged(db)
      case Failed(e) => !success && result == PyStr(e) && unchanged(db)
      case Responded(response) =>
        var summary := ExtractSummary(response);
        if !Truthy(summary) then !success && result == PyStr("No summary generated") && unchanged(db)
        else match BindText(summary)
          case Ok(text) => success && result == summary
            && db.summaries == old(db.summaries) + [SummaryRow(bookId, text, now)]
          case Raised(e) => !success && result == PyStr(e) && unchanged(db)
  {
    match AttemptSummary(services, db.GetBookById(bookId))
    case BookNotFound =>
      return false, PyStr("Book not found");
    case StoreMissing =>
      return false, PyStr("Could not load vector store");
    case StoreEmpty =>
      return false, PyStr("Vector store is empty");
    case Failed(e) =>
      return false, PyStr(e);
    case Responded(response) =>
      var summary := ExtractSummary(response);
      if !Truthy(summary) {
        return false, PyStr("No summary generated");
      }
      var stored := db.AddSummary(now, bookId, summary);
      match stored
      case Ok(_) =>
        return true, summary;
      case Raised(e) =>
        return false, PyStr(e);
  }
}
