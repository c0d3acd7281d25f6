/** Ingesting uploaded PDFs (process_uploaded_files in src/ui/main_ui.py):
    each file is saved, its text extracted, chunked and embedded into a
    collection of its own, registered as a book, and summarised when the
    model answers; a file that fails is skipped and the others go on. */
module Upload {
  import opened Wrappers
  import opened PyValues
  import opened Libraries
  import opened RagChain
  import opened Database
  import opened Session
  import SummaryTab

  // ---------------------------------------------------------------------
  // str.strip and the "no extractable text" test

  /** The characters str.strip() removes by default. */
  predicate IsWhitespace(c: char) {
    || c == ' ' || ('\t' <= c <= '\r') || ('\U{1C}' <= c <= '\U{1F}')
    || c == '\U{85}' || c == '\U{A0}' || c == '\U{1680}' || ('\U{2000}' <= c <= '\U{200A}')
    || c == '\U{2028}' || c == '\U{2029}' || c == '\U{202F}' || c == '\U{205F}' || c == '\U{3000}'
  }

  predicate AllWhitespace(s: string) {
    forall i :: 0 <= i < |s| ==> IsWhitespace(s[i])
  }

  function StripLeft(s: string): (r: string)
    ensures r != [] ==> !IsWhitespace(r[0])
  {
    if s != [] && IsWhitespace(s[0]) then StripLeft(s[1..]) else s
  }

  function StripRight(s: string): string {
    if s != [] && IsWhitespace(s[|s| - 1]) then StripRight(s[..|s| - 1]) else s
  }

  /** str.strip(). */
  function Strip(s: string): string {
    StripRight(StripLeft(s))
  }

  lemma {:induction false} StripLeftEmpty(s: string)
    ensures StripLeft(s) == [] <==> AllWhitespace(s)
  {
    if s != [] && IsWhitespace(s[0]) {
      StripLeftEmpty(s[1..]);
      assert forall i :: 1 <= i < |s| ==> s[i] == s[1..][i - 1];
    }
  }

  lemma {:induction false} StripRightEmpty(s: string)
    ensures StripRight(s) == [] <==> AllWhitespace(s)
  {
    if s != [] && IsWhitespace(s[|s| - 1]) {
      StripRightEmpty(s[..|s| - 1]);
      assert forall i :: 0 <= i < |s| - 1 ==> s[i] == s[..|s| - 1][i];
    }
  }

  /** `not text.strip()` holds exactly when every character is whitespace. */
  lemma StripEmptyIffBlank(s: string)
    ensures Strip(s) == [] <==> AllWhitespace(s)
  {
    StripLeftEmpty(s);
    var l := StripLeft(s);
    StripRightEmpty(l);
    if l != [] {
      assert !IsWhitespace(l[0]);
    }
  }

  /** `not pages or all(not t[1].strip() for t in pages)`. */
  predicate NoExtractableText(pages: seq<Page>) {
    pages == [] || forall i :: 0 <= i < |pages| ==> Strip(pages[i].text) == []
  }

  /** `sum(len(text) for _, text in pages)`. */
  function TotalChars(pages: seq<Page>): nat {
    if pages == [] then 0 else TotalChars(pages[..|pages| - 1]) + |pages[|pages| - 1].text|
  }

  // ---------------------------------------------------------------------
  // The title: filename.replace('.pdf', '')

  /** str.replace(".pdf", ""): every occurrence, left to right, without overlaps. */
  function RemovePdf(s: string): string {
    if |s| < 4 then s
    else if s[..4] == ".pdf" then RemovePdf(s[4..])
    else [s[0]] + RemovePdf(s[1..])
  }

  /** A name without ".pdf" is its own title. */
  lemma {:induction false} RemovePdfNoOccurrence(s: string)
    requires !Contains(".pdf", s)
    ensures RemovePdf(s) == s
  {
    if |s| >= 4 {
      assert s[..4] != ".pdf";
      RemovePdfNoOccurrence(s[1..]);
      assert s == [s[0]] + s[1..];
    }
  }

  /** Dropping the extension: no occurrence of ".pdf" can start in the name
      and end in the extension, since no proper suffix of ".pdf" is a prefix
      of it. */
  lemma {:induction false} RemovePdfExtension(a: string)
    ensures RemovePdf(a + ".pdf") == RemovePdf(a)
  {
    var s := a + ".pdf";
    if |a| >= 4 {
      assert s[..4] == a[..4];
      if a[..4] == ".pdf" {
        assert s[4..] == a[4..] + ".pdf";
        RemovePdfExtension(a[4..]);
      } else {
        assert s[1..] == a[1..] + ".pdf";
        RemovePdfExtension(a[1..]);
      }
    } else if a == [] {
      assert s == ".pdf" && s[4..] == [];
    } else {
      assert s[..4] != ".pdf" by {
        assert s[|a|] == '.' && ".pdf"[|a|] != '.';
      }
      assert s[1..] == a[1..] + ".pdf";
      RemovePdfExtension(a[1..]);
      assert a == [a[0]] + a[1..];
    }
  }

  /** "report.pdf" becomes "report" when "report" holds no ".pdf" itself. */
  lemma TitleOfPdfName(name: string)
    requires !Contains(".pdf", name)
    ensures RemovePdf(name + ".pdf") == name
  {
    RemovePdfExtension(name);
    RemovePdfNoOccurrence(name);
  }

  // ---------------------------------------------------------------------
  // One file

  /** uploads/{file_id}_{filename}. */
  function FilePath(fileId: string, filename: string): string {
    "uploads/" + fileId + "_" + filename
  }

  /** book_{file_id}. */
  function CollectionName(fileId: string): (r: string)
    ensures |r| == 5 + |fileId| && r[5..] == fileId
  {
    "book_" + fileId
  }

  /** The columns add_book receives for an ingested file. */
  datatype NewBook = NewBook(title: string, filename: string, filePath: string, collectionName: string,
                             pages: nat, totalChars: nat)

  /** How far one file got before its book row. */
  datatype FileOutcome =
    | SaveFailed(error: string)
    | NoText
    | EmbedFailed(error: string)
    | Embedded(book: NewBook, store: VectorStore)

  /** Save, extract, test for text, chunk and embed into book_{file_id}. */
  function IngestFile(services: Services, fileId: string, file: UploadedFile): FileOutcome {
    var path := FilePath(fileId, file.name);
    match services.save(path, file)
    case Raised(e) => SaveFailed(e)
    case Ok(_) =>
      var pages := services.extract(path);
      if NoExtractableText(pages) then NoText
      else
        var collection := CollectionName(fileId);
        match services.fromTexts(ChunkTexts(services.split, pages), Metadatas(ChunkPages(services.split, pages)),
                                 Embeddings, DefaultPersistDirectory, collection)
        case Raised(e) => EmbedFailed(e)
        case Ok(store) => Embedded(NewBook(RemovePdf(file.name), file.name, path, collection, |pages|, TotalChars(pages)), store)
  }

  /** A file is skipped exactly when saving raises, when no page has text
      other than whitespace, or when embedding raises; a file that is kept
      is registered under its name without ".pdf", in the collection of its
      uuid, with its page count and character count, and holds at least one
      page with text. */
  lemma IngestOutcome(services: Services, fileId: string, file: UploadedFile)
    ensures var r := IngestFile(services, fileId, file);
      var path := FilePath(fileId, file.name);
      var pages := services.extract(path);
      && (r.SaveFailed? <==> services.save(path, file).Raised?)
      && (r.NoText? <==> services.save(path, file).Ok? && NoExtractableText(pages))
      && (r.EmbedFailed? <==>
            (&& services.save(path, file).Ok? && !NoExtractableText(pages)
             && services.fromTexts(ChunkTexts(services.split, pages), Metadatas(ChunkPages(services.split, pages)),
                                   Embeddings, DefaultPersistDirectory, CollectionName(fileId)).Raised?))
      && (r.Embedded? ==>
            && r.book == NewBook(RemovePdf(file.name), file.name, path, CollectionName(fileId), |pages|, TotalChars(pages))
            && services.fromTexts(ChunkTexts(services.split, pages), Metadatas(ChunkPages(services.split, pages)),
                                  Embeddings, DefaultPersistDirectory, r.book.collectionName) == Ok(r.store)
            && (exists i :: 0 <= i < |pages| && !AllWhitespace(pages[i].text)))
  {
    var path := FilePath(fileId, file.name);
    var pages := services.extract(path);
    if services.save(path, file).Ok? && !NoExtractableText(pages) {
      var i :| 0 <= i < |pages| && Strip(pages[i].text) != [];
      StripEmptyIffBlank(pages[i].text);
    }
  }

  /** The automatic summary after registering a book: the text stored, or
      None when the chain raises, returns nothing, or returns a value the
      store refuses (every such error is caught and the upload goes on). */
  function AutoSummary(services: Services, store: VectorStore): Option<string> {
    match InvokeSummary(services, GetSummaryChain(store, GetOllamaLlm()))
    case Raised(_) => None
    case Ok(response) =>
      var summary := SummaryTab.ExtractSummary(response);
      if !Truthy(summary) then None
      else
        match BindText(summary)
        case Ok(text) => Some(text)
        case Raised(_) => None
  }

  /** An automatic summary is the model's completion for the summary query,
      stored exactly when that completion is not empty. */
  lemma AutoSummaryIsCompletion(services: Services, store: VectorStore)
    requires InvokeSummary(services, GetSummaryChain(store, GetOllamaLlm())).Ok?
    ensures var chain := GetSummaryChain(store, GetOllamaLlm()).chain;
      var docs := services.search(store, SummaryQuery, 20).value;
      var text := services.generate(chain.llm, chain.prompt, docs, SummaryQuery).value;
      AutoSummary(services, store) == if text == "" then None else Some(text)
  {
    SummaryTab.ExtractedSummaryIsCompletion(services, store, GetOllamaLlm());
  }

  /** One registered book and the summary stored for it. */
  datatype Processed = Processed(book: NewBook, summary: Option<string>)

  /** What happens to each uploaded file, in upload order. */
  function Outcomes(services: Services, files: seq<UploadedFile>, fileIds: seq<string>): (r: seq<FileOutcome>)
    requires |fileIds| == |files|
    ensures |r| == |files|
  {
    seq(|files|, i requires 0 <= i < |files| => IngestFile(services, fileIds[i], files[i]))
  }

  /** What one outcome adds to the list of registered books: one entry, or none. */
  function Entry(services: Services, outcome: FileOutcome): seq<Processed> {
    match outcome
    case Embedded(book, store) => [Processed(book, AutoSummary(services, store))]
    case _ => []
  }

  /** The registered books of a run of outcomes, in order. */
  function Registered(services: Services, outcomes: seq<FileOutcome>): (r: seq<Processed>)
    ensures |r| <= |outcomes|
  {
    if outcomes == [] then []
    else
      var n := |outcomes| - 1;
      Registered(services, outcomes[..n]) + Entry(services, outcomes[n])
  }

  /** The files that get a book row, in upload order. */
  function ProcessedFiles(services: Services, files: seq<UploadedFile>, fileIds: seq<string>): (r: seq<Processed>)
    requires |fileIds| == |files|
    ensures |r| <= |files|
  {
    Registered(services, Outcomes(services, files, fileIds))
  }

  lemma RegisteredPrefix(services: Services, outcomes: seq<FileOutcome>, i: nat)
    requires i < |outcomes|
    ensures Registered(services, outcomes[..i + 1]) == Registered(services, outcomes[..i]) + Entry(services, outcomes[i])
  {
    assert outcomes[..i + 1][..i] == outcomes[..i];
  }

  /** An outcome is registered exactly when it is embedded, with the summary
      its collection yields. */
  lemma {:induction false} RegisteredExactly(services: Services, outcomes: seq<FileOutcome>)
    ensures forall i :: 0 <= i < |outcomes| && outcomes[i].Embedded? ==>
      Processed(outcomes[i].book, AutoSummary(services, outcomes[i].store)) in Registered(services, outcomes)
    ensures forall p :: p in Registered(services, outcomes) ==>
      exists i :: 0 <= i < |outcomes| && outcomes[i].Embedded? && p == Processed(outcomes[i].book, AutoSummary(services, outcomes[i].store))
  {
    if outcomes != [] {
      var n := |outcomes| - 1;
      var front := outcomes[..n];
      RegisteredExactly(services, front);
      assert forall i :: 0 <= i < n ==> front[i] == outcomes[i];
      var rest := Registered(services, front);
      var step := Entry(services, outcomes[n]);
      assert Registered(services, outcomes) == rest + step;
      forall p | p in Registered(services, outcomes)
        ensures exists i :: 0 <= i < |outcomes| && outcomes[i].Embedded? && p == Processed(outcomes[i].book, AutoSummary(services, outcomes[i].store))
      {
        if p in rest {
          var i :| 0 <= i < n && front[i].Embedded? && p == Processed(front[i].book, AutoSummary(services, front[i].store));
          assert outcomes[i] == front[i];
        } else {
          assert p in step;
        }
      }
    }
  }

  /** A file gets a book row exactly when it is saved, has text and is
      embedded; its record is its outcome's book and automatic summary. */
  lemma FilesRegisteredExactly(services: Services, files: seq<UploadedFile>, fileIds: seq<string>)
    requires |fileIds| == |files|
    ensures forall i :: 0 <= i < |files| && IngestFile(services, fileIds[i], files[i]).Embedded? ==>
      var o := IngestFile(services, fileIds[i], files[i]);
      Processed(o.book, AutoSummary(services, o.store)) in ProcessedFiles(services, files, fileIds)
    ensures forall p :: p in ProcessedFiles(services, files, fileIds) ==>
      exists i :: 0 <= i < |files| && IngestFile(services, fileIds[i], files[i]).Embedded?
        && p == Processed(IngestFile(services, fileIds[i], files[i]).book, AutoSummary(services, IngestFile(services, fileIds[i], files[i]).store))
  {
    var outcomes := Outcomes(services, files, fileIds);
    RegisteredExactly(services, outcomes);
    assert forall i :: 0 <= i < |files| ==> outcomes[i] == IngestFile(services, fileIds[i], files[i]);
  }

  function BookRowOf(b: NewBook, id: int, now: int): BookRow {
    BookRow(id, b.title, b.filename, b.filePath, b.collectionName, Some(b.pages), Some(b.totalChars), now, now)
  }

  function SummaryRowsOf(summary: Option<string>, id: int, now: int): seq<SummaryRow> {
    match summary
    case None => []
    case Some(text) => [SummaryRow(id, text, now)]
  }

  /** The book rows of the registered files, numbered from firstId. */
  function BookRows(records: seq<Processed>, firstId: int, now: int): (r: seq<BookRow>)
    ensures |r| == |records|
  {
    if records == [] then []
    else
      var n := |records| - 1;
      BookRows(records[..n], firstId, now) + [BookRowOf(records[n].book, firstId + n, now)]
  }

  /** The summary rows of the registered files, each under its book's id. */
  function SummaryRows(records: seq<Processed>, firstId: int, now: int): seq<SummaryRow> {
    if records == [] then []
    else
      var n := |records| - 1;
      SummaryRows(records[..n], firstId, now) + SummaryRowsOf(records[n].summary, firstId + n, now)
  }

  /** Appending one file's entry appends its book row and its summary rows. */
  lemma RowsAppend(books: seq<BookRow>, summaries: seq<SummaryRow>, booksBefore: seq<BookRow>, summariesBefore: seq<SummaryRow>,
                   books0: seq<BookRow>, summaries0: seq<SummaryRow>,
                   records: seq<Processed>, step: seq<Processed>, id: int, firstId: int, now: int)
    requires |step| == 1
    requires booksBefore == books0 + BookRows(records, firstId, now)
    requires summariesBefore == summaries0 + SummaryRows(records, firstId, now)
    requires books == booksBefore + [BookRowOf(step[0].book, id, now)]
    requires summaries == summariesBefore + SummaryRowsOf(step[0].summary, id, now)
    requires id == firstId + |records|
    ensures books == books0 + BookRows(records + step, firstId, now)
    ensures summaries == summaries0 + SummaryRows(records + step, firstId, now)
  {
    assert (records + step)[..|records|] == records;
  }

  function Books(records: seq<Processed>): seq<NewBook> {
    if records == [] then [] else Books(records[..|records| - 1]) + [records[|records| - 1].book]
  }

  /** A file's outcome does not involve the model. */
  lemma IngestIgnoresModel(services: Services, g: (Llm, PromptTemplate, seq<Document>, string) -> Outcome<string>,
                           fileId: string, file: UploadedFile)
    ensures IngestFile(services, fileId, file) == IngestFile(services.(generate := g), fileId, file)
  {
    var s' := services.(generate := g);
    assert s'.save == services.save && s'.extract == services.extract;
    assert s'.split == services.split && s'.fromTexts == services.fromTexts;
  }

  /** Which files become books does not depend on the model: a summary that
      fails never rejects its file. */
  lemma AcceptanceIgnoresModel(services: Services, g: (Llm, PromptTemplate, seq<Document>, string) -> Outcome<string>,
                               files: seq<UploadedFile>, fileIds: seq<string>)
    requires |fileIds| == |files|
    ensures Books(ProcessedFiles(services, files, fileIds)) == Books(ProcessedFiles(services.(generate := g), files, fileIds))
  {
    var s' := services.(generate := g);
    var outcomes := Outcomes(services, files, fileIds);
    forall i | 0 <= i < |files|
      ensures outcomes[i] == Outcomes(s', files, fileIds)[i]
    {
      IngestIgnoresModel(services, g, fileIds[i], files[i]);
    }
    assert outcomes == Outcomes(s', files, fileIds);
    RegisteredBooksIgnoreModel(services, g, outcomes);
  }

  lemma {:induction false} RegisteredBooksIgnoreModel(services: Services, g: (Llm, PromptTemplate, seq<Document>, string) -> Outcome<string>,
                                                      outcomes: seq<FileOutcome>)
    ensures Books(Registered(services, outcomes)) == Books(Registered(services.(generate := g), outcomes))
  {
    if outcomes != [] {
      var n := |outcomes| - 1;
      var s' := services.(generate := g);
      RegisteredBooksIgnoreModel(services, g, outcomes[..n]);
      var rest := Registered(services, outcomes[..n]);
      var rest' := Registered(s', outcomes[..n]);
      var step := Entry(services, outcomes[n]);
      var step' := Entry(s', outcomes[n]);
      if step != [] {
        assert (rest + step)[..|rest|] == rest && (rest' + step')[..|rest'|] == rest';
      } else {
        assert rest + step == rest && rest' + step' == rest';
      }
    }
  }

  /** Every embedded outcome's collection is named after its file's uuid. */
  ghost predicate NamedAfter(outcomes: seq<FileOutcome>, ids: seq<string>)
    requires |outcomes| == |ids|
  {
    forall i :: 0 <= i < |outcomes| && outcomes[i].Embedded? ==> outcomes[i].book.collectionName == CollectionName(ids[i])
  }

  lemma OutcomesNamedAfterIds(services: Services, files: seq<UploadedFile>, fileIds: seq<string>)
    requires |fileIds| == |files|
    ensures NamedAfter(Outcomes(services, files, fileIds), fileIds)
  {
    var outcomes := Outcomes(services, files, fileIds);
    forall i | 0 <= i < |outcomes| && outcomes[i].Embedded?
      ensures outcomes[i].book.collectionName == CollectionName(fileIds[i])
    {
      IngestOutcome(services, fileIds[i], files[i]);
    }
  }

  /** Suffix of an entry's collection name: the uuid it was named after. */
  ghost predicate NamesFrom(records: seq<Processed>, ids: seq<string>) {
    forall k :: 0 <= k < |records| ==> 5 <= |records[k].book.collectionName| && records[k].book.collectionName[5..] in ids
  }

  lemma {:induction false} RegisteredNamesFrom(services: Services, outcomes: seq<FileOutcome>, ids: seq<string>)
    requires |outcomes| == |ids| && NamedAfter(outcomes, ids)
    ensures NamesFrom(Registered(services, outcomes), ids)
  {
    if outcomes != [] {
      var n := |outcomes| - 1;
      assert NamedAfter(outcomes[..n], ids[..n]) by {
        forall i | 0 <= i < n && outcomes[..n][i].Embedded?
          ensures outcomes[..n][i].book.collectionName == CollectionName(ids[..n][i])
        {
          assert outcomes[..n][i] == outcomes[i];
        }
      }
      RegisteredNamesFrom(services, outcomes[..n], ids[..n]);
      var rest := Registered(services, outcomes[..n]);
      var step := Entry(services, outcomes[n]);
      assert forall x :: x in ids[..n] ==> x in ids;
      if step != [] {
        assert step[0].book.collectionName == CollectionName(ids[n]);
      }
    }
  }

  /** Every registered book's collection is named after one of the uuids. */
  lemma CollectionsFromIds(services: Services, files: seq<UploadedFile>, fileIds: seq<string>)
    requires |fileIds| == |files|
    ensures var r := ProcessedFiles(services, files, fileIds);
      forall k :: 0 <= k < |r| ==> 5 <= |r[k].book.collectionName| && r[k].book.collectionName[5..] in fileIds
  {
    OutcomesNamedAfterIds(services, files, fileIds);
    RegisteredNamesFrom(services, Outcomes(services, files, fileIds), fileIds);
  }

  ghost predicate DistinctCollections(records: seq<Processed>) {
    forall a, b :: 0 <= a < b < |records| ==> records[a].book.collectionName != records[b].book.collectionName
  }

  lemma {:induction false} RegisteredDistinct(services: Services, outcomes: seq<FileOutcome>, ids: seq<string>)
    requires |outcomes| == |ids| && NamedAfter(outcomes, ids)
    requires forall a, b :: 0 <= a < b < |ids| ==> ids[a] != ids[b]
    ensures DistinctCollections(Registered(services, outcomes))
  {
    if outcomes != [] {
      var n := |outcomes| - 1;
      assert NamedAfter(outcomes[..n], ids[..n]) by {
        forall i | 0 <= i < n && outcomes[..n][i].Embedded?
          ensures outcomes[..n][i].book.collectionName == CollectionName(ids[..n][i])
        {
          assert outcomes[..n][i] == outcomes[i];
        }
      }
      RegisteredDistinct(services, outcomes[..n], ids[..n]);
      RegisteredNamesFrom(services, outcomes[..n], ids[..n]);
      var rest := Registered(services, outcomes[..n]);
      var step := Entry(services, outcomes[n]);
      if step != [] {
        assert ids[n] !in ids[..n] by {
          forall m | 0 <= m < n
            ensures ids[..n][m] != ids[n]
          {
          }
        }
        DistinctAppend(rest, step[0], ids[..n], ids[n]);
        assert rest + step == rest + [step[0]];
      } else {
        assert rest + step == rest;
      }
    }
  }

  /** With distinct uuids, every registered book has a collection of its own. */
  lemma CollectionsDistinct(services: Services, files: seq<UploadedFile>, fileIds: seq<string>)
    requires |fileIds| == |files|
    requires forall a, b :: 0 <= a < b < |fileIds| ==> fileIds[a] != fileIds[b]
    ensures var r := ProcessedFiles(services, files, fileIds);
      forall a, b :: 0 <= a < b < |r| ==> r[a].book.collectionName != r[b].book.collectionName
  {
    OutcomesNamedAfterIds(services, files, fileIds);
    RegisteredDistinct(services, Outcomes(services, files, fileIds), fileIds);
  }

  lemma DistinctAppend(rest: seq<Processed>, p: Processed, ids: seq<string>, id: string)
    requires NamesFrom(rest, ids) && DistinctCollections(rest)
    requires p.book.collectionName == CollectionName(id) && id !in ids
    ensures DistinctCollections(rest + [p])
  {
    var r := rest + [p];
    forall a, b | 0 <= a < b < |r|
      ensures r[a].book.collectionName != r[b].book.collectionName
    {
      if b < |rest| {
        assert r[a] == rest[a] && r[b] == rest[b];
      } else {
        assert r[a] == rest[a] && r[b] == p;
        assert p.book.collectionName[5..] == id;
      }
    }
  }

  // ---------------------------------------------------------------------
  // process_uploaded_files

  /** process_uploaded_files: fileIds are the uuid4 values drawn for the
      files. Each file that gets a book row counts once, whether or not its
      summary is stored; upload_processed is set when at least one did. */
  method ProcessUploadedFiles(session: SessionState, db: BookDatabase, services: Services,
                              files: seq<UploadedFile>, fileIds: seq<string>, now: int)
    returns (processedCount: nat)
    requires db.Valid() && db.clock <= now && |fileIds| == |files|
    modifies session, db
    ensures db.Valid()
    ensures var records := ProcessedFiles(services, files, fileIds);
      && processedCount == |records|
      && db.books == old(db.books) + BookRows(records, old(db.nextBookId), now)
      && db.summaries == old(db.summaries) + SummaryRows(records, old(db.nextBookId), now)
      && db.chatHistory == old(db.chatHistory)
      && db.nextBookId == old(db.nextBookId) + |records|
    ensures session.Snap() == old(session.Snap()).(uploadProcessed := old(session.uploadProcessed) || processedCount > 0)
  {
    if files == [] {
      return 0;
    }
    processedCount := ProcessFiles(db, services, files, fileIds, now);
    if processedCount > 0 {
      session.uploadProcessed := true;
    }
  }

  /** The loop over the files, in upload order. */
  method ProcessFiles(db: BookDatabase, services: Services, files: seq<UploadedFile>, fileIds: seq<string>, now: int)
    returns (processedCount: nat)
    requires db.Valid() && db.clock <= now && |fileIds| == |files|
    modifies db
    ensures db.Valid()
    ensures var records := ProcessedFiles(services, files, fileIds);
      && processedCount == |records|
      && db.books == old(db.books) + BookRows(records, old(db.nextBookId), now)
      && db.summaries == old(db.summaries) + SummaryRows(records, old(db.nextBookId), now)
      && db.chatHistory == old(db.chatHistory)
      && db.nextBookId == old(db.nextBookId) + |records|
  {
    processedCount := 0;
    ghost var outcomes := Outcomes(services, files, fileIds);
    ghost var firstId, books0, summaries0 := db.nextBookId, db.books, db.summaries;
    for i := 0 to |files|
      invariant db.Valid() && db.clock <= now
      invariant Progress(db.books, db.summaries, db.nextBookId, Registered(services, outcomes[..i]),
                         books0, summaries0, firstId, now)
      invariant processedCount == |Registered(services, outcomes[..i])|
      invariant db.chatHistory == old(db.chatHistory)
    {
      var registered := ProcessNext(db, services, files, fileIds, i, now, outcomes, books0, summaries0, firstId);
      if registered {
        processedCount := processedCount + 1;
      }
    }
    assert outcomes[..|files|] == outcomes;
  }

  /** After the registered files `records`, the store holds the rows it held
      before followed by theirs, and the next id has moved past them. */
  ghost predicate Progress(books: seq<BookRow>, summaries: seq<SummaryRow>, nextId: int, records: seq<Processed>,
                           books0: seq<BookRow>, summaries0: seq<SummaryRow>, firstId: int, now: int) {
    && books == books0 + BookRows(records, firstId, now)
    && summaries == summaries0 + SummaryRows(records, firstId, now)
    && nextId == firstId + |records|
  }

  /** File i, with the loop's bookkeeping: the progress made on the files
      before it extends to the files up to it. */
  method ProcessNext(db: BookDatabase, services: Services, files: seq<UploadedFile>, fileIds: seq<string>, i: nat, now: int,
                     ghost outcomes: seq<FileOutcome>,
                     ghost books0: seq<BookRow>, ghost summaries0: seq<SummaryRow>, ghost firstId: int)
    returns (registered: bool)
    requires |fileIds| == |files| && i < |files| == |outcomes|
    requires outcomes[i] == IngestFile(services, fileIds[i], files[i])
    requires db.Valid() && db.clock <= now
    requires Progress(db.books, db.summaries, db.nextBookId, Registered(services, outcomes[..i]),
                      books0, summaries0, firstId, now)
    modifies db
    ensures db.Valid() && db.clock <= now
    ensures Progress(db.books, db.summaries, db.nextBookId, Registered(services, outcomes[..i + 1]),
                     books0, summaries0, firstId, now)
    ensures |Registered(services, outcomes[..i + 1])| == |Registered(services, outcomes[..i])| + if registered then 1 else 0
    ensures db.chatHistory == old(db.chatHistory)
  {
    ghost var records := Registered(services, outcomes[..i]);
    ghost var step := Entry(services, outcomes[i]);
    RegisteredPrefix(services, outcomes, i);
    ghost var booksBefore, summariesBefore, id := db.books, db.summaries, db.nextBookId;
    registered := ProcessFile(db, services, files[i], fileIds[i], now);
    if registered {
      RowsAppend(db.books, db.summaries, booksBefore, summariesBefore, books0, summaries0, records, step, id, firstId, now);
    } else {
      assert records + step == records;
    }
  }

  /** One turn of the loop: the outer try block. A file that is not saved,
      has no text or is not embedded leaves the store as it was; otherwise its
      book row is added and its summary attempted. */
  method ProcessFile(db: BookDatabase, services: Services, file: UploadedFile, fileId: string, now: int)
    returns (registered: bool)
    requires db.Valid() && db.clock <= now
    modifies db
    ensures db.Valid() && db.clock <= now
    ensures db.chatHistory == old(db.chatHistory)
    ensures registered <==> IngestFile(services, fileId, file).Embedded?
    ensures !registered ==> db.books == old(db.books) && db.summaries == old(db.summaries) && db.nextBookId == old(db.nextBookId)
    ensures registered ==>
      var p := Entry(services, IngestFile(services, fileId, file))[0];
      && db.books == old(db.books) + [BookRowOf(p.book, old(db.nextBookId), now)]
      && db.summaries == old(db.summaries) + SummaryRowsOf(p.summary, old(db.nextBookId), now)
      && db.nextBookId == old(db.nextBookId) + 1
  {
    var path := FilePath(fileId, file.name);
    var saved := services.save(path, file);
    if saved.Raised? {
      return false;
    }
    var pages := services.extract(path);
    if NoExtractableText(pages) {
      return false;
    }
    var totalChars := TotalChars(pages);
    var totalPages := |pages|;
    var collection := CollectionName(fileId);
    var embedded := ChunkAndEmbed(services, pages, DefaultPersistDirectory, collection);
    if embedded.Raised? {
      return false;
    }
    var store := embedded.value;
    var book := NewBook(RemovePdf(file.name), file.name, path, collection, totalPages, totalChars);
    assert IngestFile(services, fileId, file) == Embedded(book, store);
    var bookId := db.AddBook(now, book.title, book.filename, book.filePath, book.collectionName,
                             Some(totalPages), Some(totalChars));
    var _ := SummariseNewBook(db, services, store, bookId, now);
    return true;
  }

  /** The inner try block: run the summary chain on the new collection and
      store a non-empty result; any error is caught. */
  method SummariseNewBook(db: BookDatabase, services: Services, store: VectorStore, bookId: int, now: int)
    returns (stored: bool)
    requires db.Valid() && db.clock <= now
    modifies db
    ensures db.Valid() && db.clock <= now
    ensures db.books == old(db.books) && db.chatHistory == old(db.chatHistory) && db.nextBookId == old(db.nextBookId)
    ensures stored == AutoSummary(services, store).Some?
    ensures db.summaries == old(db.summaries) + SummaryRowsOf(AutoSummary(services, store), bookId, now)
  {
    var llm := GetOllamaLlm();
    var chain := GetSummaryChain(store, llm);
    var result := InvokeSummary(services, chain);
    stored := false;
    if result.Ok? {
      var summary := SummaryTab.ExtractSummary(result.value);
      if Truthy(summary) {
        var r := db.AddSummary(now, bookId, summary);
        stored := r.Ok?;
      }
    }
  }
}
