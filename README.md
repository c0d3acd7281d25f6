# Book RAG assistant — a Dafny model of its core

The book RAG assistant is a Streamlit application. It ingests PDFs, stores each one as a
collection of embedded chunks, and answers questions about a book or summarises it with a
local Ollama model. This project models the part of it that decides what is stored and what
is shown:

- **the metadata store** (`src/core/database.py`). The `BookDatabase` class holds the
  `books`, `chat_history` and `summaries` tables as sequences of rows in insertion order.
  Its queries are functions of those sequences. Its statements are methods that append,
  update or delete rows, and they keep an invariant: ids are unique and below the
  AUTOINCREMENT counter, and no timestamp is later than the store's clock.
- **the retrieval chains** (`src/core/rag_chain.py`):
  - the loop in `chunk_and_embed` that flattens pages into chunk texts and `{"page": p}`
    metadata;
  - opening a stored collection, where any exception becomes None;
  - the fixed parameters of the question-answering and summary chains;
  - the dict that `RetrievalQA.invoke` returns.
- **the two handlers** of `src/core/app.py`, which answer a pending question and generate a
  requested summary.
- **the UI logic** of `src/ui/main_ui.py`:
  - the library page: search, the four sort modes, pages of six books with clamped
    navigation, and the Open / Info / Delete buttons;
  - the delete confirmation in the settings tab;
  - the chat input;
  - summary generation from the summary tab;
  - `process_uploaded_files`, which ingests a batch of uploads into books, collections and
    automatic summaries.

The Streamlit session is the class `Session.SessionState`. Each session key it uses is a
field; an absent key is None or false.

Every library the core calls is a function-typed field of `Libraries.Services`: the text
splitter, Chroma, the embedding model, Ollama, the PDF extractor and the file writer. A call
that can raise returns an `Outcome`, so the model covers every error path the core handles.
`RagChain.InvokeChain` models how RetrievalQA builds its output dict: the keys "query",
"result" and, when sources are requested, "source_documents". The model's completion itself
comes from `Services.generate`.

The code has no typed failures, no similarity floor and no build lock. Every failure becomes
None, a message, or a skipped file. The handlers and the library grid are modelled as the code
is written, including the four defects under "## Findings". The corrected definitions are
stated and proved beside them.

## Model

| member | source | states |
|---|---|---|
| Database.EncodeChat | src/core/database.py:118-131 | the insert succeeds exactly when question and answer bind and truthy sources serialise; sources are NULL when falsy, otherwise json.dumps of them |
| Database.FindBook | src/core/database.py:89-102 | None exactly when no row has the id; otherwise a stored row with that id |
| Database.AllBooks | src/core/database.py:74-87 | every book exactly once (same multiset of listings), ordered by last_accessed descending |
| Database.ChatHistory | src/core/database.py:133-148 | that book's turns newest first, exactly `limit` of them when there are more (a negative limit means no limit), none left out newer than one returned, and empty for a book with no turns |
| Database.HistoryOfNone | src/core/database.py:138-144 | a book without chat rows has an empty history |
| Database.LatestSummary | src/core/database.py:163-178 | None exactly when the book has no summary; otherwise one of its summaries whose generated_date is the greatest |
| Database.Touch | src/core/database.py:104-116 | only that book's last_accessed changes, to now; every other column and row stays |
| Database.WithoutBook | src/core/database.py:196 | every remaining row is a stored row with another id; every row with that id goes and each other row stays as often as it occurred |
| Database.WithoutChats | src/core/database.py:190 | every remaining turn is a stored turn of another book; every turn of that book goes and each other turn stays as often as it occurred |
| Database.WithoutSummaries | src/core/database.py:193 | every remaining summary is a stored summary of another book; every summary of that book goes and each other summary stays as often as it occurred |
| Database.FindInserted | src/core/database.py:59-72 | a row inserted under a fresh id is what get_book_by_id returns for it |
| Database.FindInsertedOther | src/core/database.py:59-72 | an insert does not change what any other id finds |
| Database.FindAfterDeleteOther | src/core/database.py:196 | deleting one book does not change what any other id finds |
| Database.HistoryAfterDeleteOther | src/core/database.py:190 | deleting one book's turns leaves every other book's history as it was |
| Database.HistoryOfConcat | src/core/database.py:138-142 | the history of two runs of rows is the history of each, in order |
| Database.SummariesAfterDeleteOther | src/core/database.py:193 | deleting one book's summaries leaves every other book's summaries as they were |
| Database.SummariesOfConcat | src/core/database.py:168-172 | the summaries of two runs of rows are those of each, in order |
| Database.DeletedBookIsGone | src/core/database.py:180-199 | after delete_book(id), get_book_by_id, get_chat_history (any limit) and get_latest_summary find nothing for that id |
| Database.DeleteKeepsOtherBooks | src/core/database.py:180-199 | delete_book(id) leaves every other book's row, history under any limit, and latest summary unchanged |
| Database.WithoutBookUnique | src/core/database.py:196 | deleting rows keeps ids unique |
| Database.FindAfterTouch | src/core/database.py:104-116 | touching a book changes nothing get_book_by_id returns, for any id |
| Database.BookDatabase.constructor | src/core/database.py:12-57 | three empty tables, the id counter at 1, and the invariant established |
| Database.BookDatabase.AddBook | src/core/database.py:59-72 | appends one row stamped now under a fresh id larger than every stored id, returns that id, finds the new book under it and leaves every other id's lookup unchanged |
| Database.BookDatabase.UpdateLastAccessed | src/core/database.py:104-116 | the books become Touch(old books); every lookup is unchanged; the touched book becomes the most recently accessed |
| Database.BookDatabase.AddChatHistory | src/core/database.py:118-131 | appends exactly one turn with the encoded fields when they bind; otherwise raises the binding error and changes nothing |
| Database.BookDatabase.AddSummary | src/core/database.py:150-161 | appends exactly one summary row when the value binds as text; otherwise raises and changes nothing |
| Database.BookDatabase.DeleteBook | src/core/database.py:180-199 | removes the book's row, turns and summaries and nothing else; returns the file path and collection read before the delete (None for an unknown id); the invariant is kept |
| PyValues.ContainsIsSubstring | src/ui/main_ui.py:199 | Python's `in` on strings holds exactly when the needle occurs at some offset of the haystack |
| PyValues.StrOfContainerNonEmpty | src/ui/main_ui.py:399 | str() of a dict, list, None or int is never empty |
| PyValues.DumpsFirstChar | src/core/database.py:123 | json.dumps of a list starts with '[', of a str with '"', of a dict with '{' |
| Seqs.Filter | src/ui/main_ui.py:199 | keeps exactly the elements that pass, each as often as it occurred, all passing |
| Seqs.FilterConcat | src/ui/main_ui.py:199 | the comprehension preserves order: filtering a concatenation filters each part |
| Seqs.InsertionSortSorted | src/ui/main_ui.py:206-213 | under a total preorder the sort is ordered |
| Seqs.InsertionSortStable | src/ui/main_ui.py:206-213 | elements with equal keys keep their relative order, as Python's sorted does |
| Seqs.LimitOfSorted | src/core/database.py:142-143 | LIMIT on an ordered list gives an ordered sub-multiset; no element after the limit must precede one kept |
| Seqs.SortedFirstLeast | src/core/database.py:172-173 | the first row of an ordered list may precede every row |
| RagChain.ChunkPages | src/core/rag_chain.py:35-39 | one page number per chunk text |
| RagChain.Metadatas | src/core/rag_chain.py:39 | one `{"page": p}` dict per chunk, in chunk order |
| RagChain.Flatten | src/core/rag_chain.py:33-39 | the nested loop produces ChunkTexts and the matching page metadata, of equal length |
| RagChain.ChunkTextsConcat | src/core/rag_chain.py:35-38 | the texts follow page order: the chunks of two page lists are those of each, in order |
| RagChain.ChunkPagesConcat | src/core/rag_chain.py:35-39 | the page numbers of two page lists are those of each, in order |
| RagChain.SinglePageChunks | src/core/rag_chain.py:36-39 | one page yields its split, every chunk tagged with its number |
| RagChain.ChunkProvenance | src/core/rag_chain.py:35-39 | every chunk is a chunk of some page, and its metadata carries that page's number |
| RagChain.ChunkCountIsSum | src/core/rag_chain.py:35-38 | the number of records is the sum of the per-page chunk counts |
| RagChain.ChunkAndEmbed | src/core/rag_chain.py:23-51 | Chroma.from_texts receives exactly the flattened texts and metadata, the fixed embedding model, the directory and the collection; its result or exception is returned |
| RagChain.LoadExistingVectorStore | src/core/rag_chain.py:53-71 | None exactly when opening raises; otherwise the opened store |
| RagChain.InvokeChain | src/core/rag_chain.py:84-90 | succeeds exactly when retrieval and generation succeed; the dict holds the query, the completion as "result", and the retrieved documents exactly when the chain returns sources |
| RagChain.ChainParameters | src/core/rag_chain.py:74-110 | QA retrieves 5 chunks and returns sources; summary retrieves 20, returns none and always asks the fixed query; prompts and input variables as given; the model is llama2 |
| RagChain.ResponseSources | src/core/rag_chain.py:84-110 | a QA answer carries exactly the retrieved documents under "source_documents"; a summary carries none |
| Libraries.DocumentValue | src/core/app.py:60-62 | a retrieved Document is an object with attributes metadata and page_content |
| App.AnswerOf | src/core/app.py:66 | the answer is response['result'] when the dict has it, otherwise str(response) |
| App.MetadataOfDocuments | src/core/app.py:60-62 | documents yield one metadata dict each, in retrieval order |
| App.QaAnswerIsCompletion | src/core/app.py:57-66 | the recorded answer is the model's completion for the question and the five retrieved chunks |
| App.SourcesAsWrittenAreLost | src/core/app.py:58-62 | as written, the collected sources are always empty |
| App.SourcesAreRetrievedMetadata | src/core/app.py:58-62 | as intended, the sources are the metadata of the retrieved documents, one per document, in order |
| App.SourcesAsWrittenEncodedTwice | src/core/app.py:67 | as written, the stored sources column is a JSON string of the JSON list (it starts with '"') |
| App.SourcesStoredOnce | src/core/app.py:67 | as intended, the column holds json.dumps(sources), a JSON list, or NULL when there are none |
| App.ChatStopsBeforeModel | src/core/app.py:39-54 | a missing book, a store that fails to open, or an empty probe ends the request whatever the model would answer |
| App.ChatAnswerCarriesCompletion | src/core/app.py:55-68 | an answered attempt carries the model's completion and, as written, a NULL sources argument, so the turn binds as the question, the completion and NULL |
| App.HandleChatInteraction | src/core/app.py:29-83 | nothing changes without a non-empty pending question and a selected book; otherwise the attempt on the book's stored row decides the end state, as CommitChat states; an answer appends the turn (question, completion, sources NULL) and touches the book; summaries untouched |
| App.CommitChat | src/core/app.py:44-83 | chat_loading ends False on every path; a missing book, store or content keeps the question and writes nothing; an exception, including one while binding the turn, drops the question and writes nothing; an answer appends one turn with the sources argument as the handler built it, touches the book and drops the question |
| App.SummaryAsWrittenNeverStored | src/core/app.py:110-112 | as written, the chain's dict passes `if summary:` and binding it raises, so nothing is stored |
| App.SummaryStoredAsCompletion | src/core/app.py:110-112 | as intended, the stored text is the model's completion, and an empty completion is not stored |
| App.SummaryStopsBeforeModel | src/core/app.py:93-107 | a missing book, a store that fails to open, or an empty probe ends the summary request before the model is called |
| App.RespondedSummaryNeverStored | src/core/app.py:108-112 | whatever the summary chain returns to the handler passes `if summary:` and fails to bind as the summary text |
| App.HandleSummaryGeneration | src/core/app.py:85-126 | nothing changes without the flag and a selected book; a missing book, store or content keeps the flag and writes nothing; an exception clears the flag; a response of the chain, handed whole to add_summary, stores nothing and clears the flag (through the except branch); books and chats are never touched |
| App.StoreGeneratedSummary | src/core/app.py:110-126 | the chain's result is handed to add_summary as it is: a falsy result changes nothing; a truthy one clears the flag, and is appended as one summary row only when it binds as text |
| SummaryTab.ExtractSummary | src/ui/main_ui.py:396-399 | the "result" item of a dict that has one, otherwise str() of the result |
| SummaryTab.ExtractedSummaryIsCompletion | src/ui/main_ui.py:394-402 | a successful summary chain extracts to exactly the model's completion, which is stored exactly when it is non-empty |
| SummaryTab.NonDictResultIsItsText | src/ui/main_ui.py:396-401 | a non-dict result is rejected only when it is the empty string |
| SummaryTab.GenerateSummaryForBook | src/ui/main_ui.py:372-409 | (False, reason) with the store unchanged for a missing book, a store that fails to open, an empty store, an exception or an empty summary; (True, summary) exactly when one summary row is appended |
| LibraryPage.Search | src/ui/main_ui.py:197-199 | an empty term keeps the list; otherwise exactly the matching books, each as often as before |
| LibraryPage.SearchKeepsExactly | src/ui/main_ui.py:199 | a book survives the search exactly when it is stored and its lower-cased title or filename contains the lower-cased term |
| LibraryPage.StrLeTotal | src/ui/main_ui.py:209 | any two titles are comparable |
| LibraryPage.StrLeTransitive | src/ui/main_ui.py:209 | the title order is transitive |
| LibraryPage.StrLeAntisymmetric | src/ui/main_ui.py:209 | two titles tie only when they are equal |
| LibraryPage.OrderIsPreorder | src/ui/main_ui.py:206-213 | each of the four sort keys gives a total preorder |
| LibraryPage.SortBooks | src/ui/main_ui.py:205-213 | a permutation of the books, ordered by the chosen key (last_accessed, upload_date and total_chars descending, with NULL as 0; title ascending) |
| LibraryPage.SortIsStable | src/ui/main_ui.py:206-213 | books with equal keys keep the store's order |
| LibraryPage.TotalPages | src/ui/main_ui.py:219-220 | the fewest pages of six that hold all books; zero pages exactly for zero books |
| LibraryPage.PageSlice | src/ui/main_ui.py:240-242 | at most six consecutive books starting at page*6; empty past the end |
| LibraryPage.PagesArePrefix | src/ui/main_ui.py:240-242 | the first k pages, read in order, are the first min(6k, n) books |
| LibraryPage.PagesPartition | src/ui/main_ui.py:219-242 | all pages, read in order, are exactly the list |
| LibraryPage.IndexOnItsPage | src/ui/main_ui.py:240-242 | book i is on page i // 6, at place i % 6 |
| LibraryPage.PreviousPage | src/ui/main_ui.py:230 | one page back, never below 0 |
| LibraryPage.NextPage | src/ui/main_ui.py:236 | one page on, never past the last page |
| LibraryPage.ClickPrevious | src/ui/main_ui.py:226-231 | only library_page changes, and only when the button is drawn and enabled; an index on a page stays on a page |
| LibraryPage.ClickNext | src/ui/main_ui.py:226-237 | only library_page changes, and only when the button is drawn and enabled; it then lands on an existing page |
| LibraryPage.DisplayedBooksAsWritten | src/ui/main_ui.py:240-242 | as written, the cards drawn are the slice at library_page |
| LibraryPage.StalePageShowsNothing | src/ui/main_ui.py:222-242 | as written, a library_page left past the end of a shrunken list shows no card, and a list of six or fewer shows no navigation to leave it |
| LibraryPage.DisplayedPage | src/ui/main_ui.py:240 | as intended, the page shown is library_page clamped to the last page |
| LibraryPage.DisplayedBooksNonEmpty | src/ui/main_ui.py:240-242 | as intended, a non-empty list always shows a card, and an index on a page shows the same cards as the code |
| LibraryPage.RenderLibrary | src/ui/main_ui.py:184-246 | the empty-library view exactly when the store is empty, the no-match view exactly when the search keeps nothing; a grid counts the matches and their pages, draws navigation exactly when there is more than one page, and shows at most six books: at least one while library_page is on a page, none once it is past the last page |
| LibraryPage.ShownBooksMatch | src/ui/main_ui.py:197-246 | every card shown is a stored book that matches the search |
| LibraryPage.ClickOpen | src/ui/main_ui.py:265-268 | the book becomes current and is touched; nothing else changes |
| LibraryPage.ClickInfo | src/ui/main_ui.py:286-289 | the book becomes current and the detail page is selected; nothing else changes |
| LibraryPage.ClickDeleteOnCard | src/ui/main_ui.py:270-284 | the first click only arms that book's confirmation; the second deletes the book's row, turns and summaries, clears the current book if it was that one, and disarms |
| LibraryPage.ClickSettingsDelete | src/ui/main_ui.py:504-517 | the first click only sets the shared flag; the second deletes the current book's rows, clears the current book and the flag |
| Session.SessionState.constructor | src/ui/main_ui.py:15-28 | the session starts with no book, no question, page 0, no confirmations, and the home page |
| Session.SessionState.SubmitQuestion | src/ui/main_ui.py:601-628 | with a book open and no question in flight, a non-empty prompt becomes the pending question and sets chat_loading; otherwise nothing changes |
| Upload.StripLeftEmpty | src/ui/main_ui.py:655 | stripping the left end leaves nothing exactly when the text is all whitespace |
| Upload.StripRightEmpty | src/ui/main_ui.py:655 | stripping the right end leaves nothing exactly when the text is all whitespace |
| Upload.StripEmptyIffBlank | src/ui/main_ui.py:655 | `not text.strip()` holds exactly when every character is whitespace |
| Upload.RemovePdfNoOccurrence | src/ui/main_ui.py:677 | a name without ".pdf" is its own title |
| Upload.RemovePdfExtension | src/ui/main_ui.py:677 | dropping a trailing ".pdf" agrees with the replace on the stem |
| Upload.TitleOfPdfName | src/ui/main_ui.py:677 | "name.pdf" is titled "name" when the name holds no ".pdf" |
| Upload.CollectionName | src/ui/main_ui.py:665 | the collection is "book_" followed by the file's uuid |
| Upload.IngestOutcome | src/ui/main_ui.py:643-683 | a file is skipped exactly when saving raises, no page has non-whitespace text, or embedding raises; a kept file has its stem title, its path and collection, its page and character counts, and at least one page of text |
| Upload.AutoSummaryIsCompletion | src/ui/main_ui.py:686-704 | after a successful summary chain, the stored automatic summary is the model's completion, or none when it is empty |
| Upload.RegisteredExactly | src/ui/main_ui.py:641-706 | an outcome is registered exactly when it is embedded, together with its automatic summary |
| Upload.FilesRegisteredExactly | src/ui/main_ui.py:641-706 | a file gets a book record exactly when it is saved, has text and is embedded, and every record comes from such a file |
| Upload.IngestIgnoresModel | src/ui/main_ui.py:642-683 | a file's outcome does not depend on the model |
| Upload.AcceptanceIgnoresModel | src/ui/main_ui.py:685-706 | which files become books does not depend on the model: a failed summary never rejects its file |
| Upload.CollectionsFromIds | src/ui/main_ui.py:644-665 | every registered book's collection is named after one of the uuids drawn |
| Upload.CollectionsDistinct | src/ui/main_ui.py:644-665 | with distinct uuids, no two registered books share a collection |
| Upload.ProcessUploadedFiles | src/ui/main_ui.py:630-716 | the store gains exactly the book rows of the accepted files, in order, under consecutive ids, and their non-empty summaries; the count is the number of accepted files; upload_processed is set exactly when it is positive; chats untouched |
| Upload.ProcessFiles | src/ui/main_ui.py:641-710 | the loop over the files appends each accepted file's book row and summary row in upload order |
| Upload.ProcessFile | src/ui/main_ui.py:642-710 | one file is registered exactly when it is embedded; then one book row and its summary row are appended; otherwise nothing changes |
| Upload.SummariseNewBook | src/ui/main_ui.py:686-704 | the automatic summary is stored exactly when it exists; books and chats are untouched |

## Left out

- File I/O is not modelled: the upload directory, the bytes of a saved file, and the files and
  Chroma directories that delete_book removes (src/core/database.py:201-221). Saving is
  `Services.save`. Deletion returns the path and collection it would remove.
- PDF extraction (src/utils/pdf_utils.py) is the parameter `Services.extract`. It catches its
  own errors, as the code does.
- Chunking, embedding, similarity search and generation are the parameters `split`,
  `fromTexts`, `openStore`, `search` and `generate`. The prompt text is a constant
  (RagChain.TemplateText). How it is filled in and sent to the model is part of `generate`.
- uuid4 values are the parameter `fileIds` of Upload.ProcessUploadedFiles. Distinctness is
  assumed only by Upload.CollectionsDistinct.
- Upload.ProcessUploadedFiles: add_book is modelled as never raising. A SQLite error there,
  which the outer try would catch, is not modelled.
- Database.BookDatabase: CURRENT_TIMESTAMP is a parameter `now` that never goes below the
  store's clock. A wall clock that moves backwards is not modelled. One call uses one `now`.
- Database.AllBooks, Database.ChatHistory, Database.LatestSummary: the order of rows with equal
  timestamps is left open, as SQL leaves it. The contracts state only the ordering and which
  rows are kept.
- PyValues.Lower: only A–Z are lower-cased. Python's full Unicode case mapping is not
  modelled, so the search's case folding is exact for ASCII titles only.
- Streamlit rendering, messages, spinners and `st.rerun()` are left out. Each handler ends where
  the code would rerun.
- The session keys `chat_history`, `db` and `show_welcome` are left out. Nothing in the core
  reads them.
- The pages outside the core are not part of this model: home, analytics, settings, the
  history and analytics tabs, and the header and footer.
- Logging is left out.

## Findings

| source | as written | input that shows it | evidently intended | confidence | as-written member | corrected member |
|---|---|---|---|---|---|---|
| src/core/app.py:110-112 | the summary handler passes the chain's whole result dict to add_summary | any successful summary call: the dict {"query": ..., "result": text} is truthy, binding it to the summary column raises "type 'dict' is not supported", and the handler ends in its except branch with nothing stored | store summary_result['result'], as generate_summary_for_book and process_uploaded_files do | not executed | App.SummaryAsWrittenNeverStored | App.SummaryStoredAsCompletion |
| src/core/app.py:59-62 | sources are read with `hasattr(response, 'source_documents')` on a dict | any answered question with five retrieved documents: a dict has no such attribute, so the turn is stored with sources NULL | read response['source_documents'] and collect each document's metadata | not executed | App.SourcesAsWrittenAreLost | App.SourcesAreRetrievedMetadata |
| src/core/app.py:67 | the handler passes json.dumps(sources), and add_chat_history dumps it again (src/core/database.py:123) | sources [{"page": 1}]: the column holds `"[{\"page\": 1}]"`, which json.loads turns into a str, not a list | pass the list and encode it once | not executed | App.SourcesAsWrittenEncodedTwice | App.SourcesStoredOnce |
| src/ui/main_ui.py:222-242 | library_page is never clamped when the list shrinks | 13 books, Next twice (page 2), then a search matching 3 books: "3 Book(s)" is shown with no cards and no navigation | show the last existing page | not executed | LibraryPage.StalePageShowsNothing | LibraryPage.DisplayedBooksNonEmpty |

The handlers and the grid use the definitions as written: App.AttemptChat, App.CommitChat,
App.HandleSummaryGeneration and LibraryPage.RenderLibrary behave as the code does. Each
corrected member states what the code evidently means to do, for the case it fixes.

One more behaviour is modelled as written, not corrected:

- The settings tab keeps one `confirm_settings_delete` flag for every book, not one per book.
- So a first click on one book arms the second click on whichever book is current then
  (LibraryPage.ClickSettingsDelete).
