/** The metadata store of src/core/database.py: the books, chat_history and
    summaries tables of a SQLite file, held in memory as sequences of rows in
    insertion (rowid) order. The queries are functions of those sequences; the
    statements that change the tables are methods of BookDatabase. */
module Database {
  import opened Wrappers
  import opened PyValues
  import opened Seqs

  /** A row of the books table. `pages` and `total_chars` are nullable
      INTEGER columns; timestamps are the store's logical clock. */
  datatype BookRow = BookRow(
    id: int, title: string, filename: string, filePath: string, collectionName: string,
    pages: Option<int>, totalChars: Option<int>, uploadDate: int, lastAccessed: int)

  /** The columns get_book_by_id selects. */
  datatype BookInfo = BookInfo(
    id: int, title: string, filename: string, filePath: string, collectionName: string,
    pages: Option<int>, totalChars: Option<int>, uploadDate: int)

  /** The columns get_all_books selects. */
  datatype BookListing = BookListing(
    id: int, title: string, filename: string, pages: Option<int>, totalChars: Option<int>,
    uploadDate: int, lastAccessed: int)

  /** A row of chat_history; `sources` is the TEXT column (NULL is None). */
  datatype ChatRow = ChatRow(bookId: int, question: string, answer: string, sources: Option<string>, timestamp: int)

  /** The columns get_chat_history selects. */
  datatype HistoryEntry = HistoryEntry(question: string, answer: string, sources: Option<string>, timestamp: int)

  /** A row of summaries. */
  datatype SummaryRow = SummaryRow(bookId: int, summary: string, generatedDate: int)

  /** The columns get_latest_summary selects. */
  datatype SummaryEntry = SummaryEntry(summary: string, generatedDate: int)

  /** The text columns of a chat_history insert, once bound. */
  datatype ChatFields = ChatFields(question: string, answer: string, sources: Option<string>)

  function InfoOf(b: BookRow): BookInfo {
    BookInfo(b.id, b.title, b.filename, b.filePath, b.collectionName, b.pages, b.totalChars, b.uploadDate)
  }

  function ListingOf(b: BookRow): BookListing {
    BookListing(b.id, b.title, b.filename, b.pages, b.totalChars, b.uploadDate, b.lastAccessed)
  }

  function EntryOf(c: ChatRow): HistoryEntry {
    HistoryEntry(c.question, c.answer, c.sources, c.timestamp)
  }

  function SummaryEntryOf(s: SummaryRow): SummaryEntry {
    SummaryEntry(s.summary, s.generatedDate)
  }

  /** No two rows share an id (the INTEGER PRIMARY KEY). */
  ghost predicate UniqueIds(rows: seq<BookRow>) {
    forall i, j :: 0 <= i < j < |rows| ==> rows[i].id != rows[j].id
  }

  // ---------------------------------------------------------------------
  // Statement parameters

  /** add_chat_history's columns: `sources` becomes json.dumps(sources) when
      it is truthy and NULL otherwise, then sqlite3 binds question, answer
      and sources. */
  function EncodeChat(question: PyValue, answer: PyValue, sources: PyValue): (r: Outcome<ChatFields>)
    ensures r.Ok? <==> BindText(question).Ok? && BindText(answer).Ok? && (Truthy(sources) ==> Dumps(sources).Ok?)
    ensures r.Ok? ==> r.value.question == BindText(question).value && r.value.answer == BindText(answer).value
    ensures r.Ok? && !Truthy(sources) ==> r.value.sources == None
    ensures r.Ok? && Truthy(sources) ==> r.value.sources == Some(Dumps(sources).value)
  {
    var json: Outcome<PyValue> :=
      if !Truthy(sources) then Ok(PyNone)
      else (match Dumps(sources) case Ok(t) => Ok(PyStr(t)) case Raised(e) => Raised(e));
    match json
    case Raised(e) => Raised(e)
    case Ok(j) =>
      match BindText(question)
      case Raised(e) => Raised(e)
      case Ok(q) =>
        match BindText(answer)
        case Raised(e) => Raised(e)
        case Ok(a) =>
          match BindNullableText(j)
          case Raised(e) => Raised(e)
          case Ok(s) => Ok(ChatFields(q, a, s))
  }

  // ---------------------------------------------------------------------
  // Queries

  /** SELECT ... FROM books WHERE id = ?, fetchone(). */
  function FindBook(rows: seq<BookRow>, id: int): (r: Option<BookRow>)
    ensures r.None? <==> forall i :: 0 <= i < |rows| ==> rows[i].id != id
    ensures r.Some? ==> r.value in rows && r.value.id == id
  {
    if rows == [] then None
    else if rows[0].id == id then Some(rows[0])
    else
      var r := FindBook(rows[1..], id);
      assert r.None? ==> forall i :: 1 <= i < |rows| ==> rows[i].id != id by {
        if r.None? {
          forall i | 1 <= i < |rows| ensures rows[i].id != id {
            assert rows[i] == rows[1..][i - 1];
          }
        }
      }
      r
  }

  function Listings(rows: seq<BookRow>): (r: seq<BookListing>)
    ensures |r| == |rows| && forall i :: 0 <= i < |rows| ==> r[i] == ListingOf(rows[i])
  {
    seq(|rows|, i requires 0 <= i < |rows| => ListingOf(rows[i]))
  }

  /** ORDER BY last_accessed DESC. */
  predicate RecentFirst(a: BookListing, b: BookListing) {
    a.lastAccessed >= b.lastAccessed
  }

  /** get_all_books: every book once, most recently accessed first. The order
      among books with equal last_accessed is not specified by SQL. */
  function AllBooks(rows: seq<BookRow>): (r: seq<BookListing>)
    ensures multiset(r) == multiset(Listings(rows))
    ensures SortedBy(r, RecentFirst)
  {
    InsertionSortSorted(Listings(rows), RecentFirst);
    InsertionSort(Listings(rows), RecentFirst)
  }

  /** The turns of one book, in insertion order. */
  function HistoryOf(rows: seq<ChatRow>, bookId: int): (r: seq<HistoryEntry>)
    ensures forall e :: e in r <==> exists i :: 0 <= i < |rows| && rows[i].bookId == bookId && EntryOf(rows[i]) == e
  {
    if rows == [] then []
    else
      var rest := HistoryOf(rows[1..], bookId);
      assert forall e :: e in rest <==> exists i :: 1 <= i < |rows| && rows[i].bookId == bookId && EntryOf(rows[i]) == e by {
        forall e ensures e in rest <==> exists i :: 1 <= i < |rows| && rows[i].bookId == bookId && EntryOf(rows[i]) == e {
          if e in rest {
            var i :| 0 <= i < |rows[1..]| && rows[1..][i].bookId == bookId && EntryOf(rows[1..][i]) == e;
            assert rows[i + 1] == rows[1..][i];
          }
          if exists i :: 1 <= i < |rows| && rows[i].bookId == bookId && EntryOf(rows[i]) == e {
            var i :| 1 <= i < |rows| && rows[i].bookId == bookId && EntryOf(rows[i]) == e;
            assert rows[1..][i - 1] == rows[i];
          }
        }
      }
      (if rows[0].bookId == bookId then [EntryOf(rows[0])] else []) + rest
  }

  /** ORDER BY timestamp DESC. */
  predicate NewestFirst(a: HistoryEntry, b: HistoryEntry) {
    a.timestamp >= b.timestamp
  }

  /** get_chat_history(book_id, limit): that book's turns, newest first, at
      most `limit` of them (a negative limit is no limit, as in SQLite), and
      none left out is newer than one returned. */
  function ChatHistory(rows: seq<ChatRow>, bookId: int, limit: int := 50): (r: seq<HistoryEntry>)
    ensures var all := HistoryOf(rows, bookId);
      |r| == if 0 <= limit < |all| then limit else |all|
    ensures multiset(r) <= multiset(HistoryOf(rows, bookId))
    ensures SortedBy(r, NewestFirst)
    ensures forall x, i :: x in multiset(HistoryOf(rows, bookId)) - multiset(r) && 0 <= i < |r| ==> x.timestamp <= r[i].timestamp
    ensures (forall i :: 0 <= i < |rows| ==> rows[i].bookId != bookId) ==> r == []
  {
    var all := InsertionSort(HistoryOf(rows, bookId), NewestFirst);
    InsertionSortSorted(HistoryOf(rows, bookId), NewestFirst);
    LimitOfSorted(all, limit, NewestFirst);
    HistoryOfNone(rows, bookId);
    Limit(all, limit)
  }

  lemma HistoryOfNone(rows: seq<ChatRow>, bookId: int)
    ensures (forall i :: 0 <= i < |rows| ==> rows[i].bookId != bookId) ==> HistoryOf(rows, bookId) == []
  {
    if forall i :: 0 <= i < |rows| ==> rows[i].bookId != bookId {
      if HistoryOf(rows, bookId) != [] {
        assert HistoryOf(rows, bookId)[0] in HistoryOf(rows, bookId);
      }
    }
  }

  /** The summaries of one book, in insertion order. */
  function SummariesOf(rows: seq<SummaryRow>, bookId: int): (r: seq<SummaryEntry>)
    ensures forall e :: e in r <==> exists i :: 0 <= i < |rows| && rows[i].bookId == bookId && SummaryEntryOf(rows[i]) == e
  {
    if rows == [] then []
    else
      var rest := SummariesOf(rows[1..], bookId);
      assert forall e :: e in rest <==> exists i :: 1 <= i < |rows| && rows[i].bookId == bookId && SummaryEntryOf(rows[i]) == e by {
        forall e ensures e in rest <==> exists i :: 1 <= i < |rows| && rows[i].bookId == bookId && SummaryEntryOf(rows[i]) == e {
          if e in rest {
            var i :| 0 <= i < |rows[1..]| && rows[1..][i].bookId == bookId && SummaryEntryOf(rows[1..][i]) == e;
            assert rows[i + 1] == rows[1..][i];
          }
          if exists i :: 1 <= i < |rows| && rows[i].bookId == bookId && SummaryEntryOf(rows[i]) == e {
            var i :| 1 <= i < |rows| && rows[i].bookId == bookId && SummaryEntryOf(rows[i]) == e;
            assert rows[1..][i - 1] == rows[i];
          }
        }
      }
      (if rows[0].bookId == bookId then [SummaryEntryOf(rows[0])] else []) + rest
  }

  /** ORDER BY generated_date DESC. */
  predicate LatestFirst(a: SummaryEntry, b: SummaryEntry) {
    a.generatedDate >= b.generatedDate
  }

  /** get_latest_summary: a summary of that book with the greatest
      generated_date (which one, among equal dates, SQL leaves open), or None
      when the book has none. */
  function LatestSummary(rows: seq<SummaryRow>, bookId: int): (r: Option<SummaryEntry>)
    ensures r.None? <==> forall i :: 0 <= i < |rows| ==> rows[i].bookId != bookId
    ensures r.Some? ==> exists i :: 0 <= i < |rows| && rows[i].bookId == bookId && SummaryEntryOf(rows[i]) == r.value
    ensures r.Some? ==> forall i :: 0 <= i < |rows| && rows[i].bookId == bookId ==> rows[i].generatedDate <= r.value.generatedDate
  {
    var own := SummariesOf(rows, bookId);
    var all := InsertionSort(own, LatestFirst);
    var top := Limit(all, 1);
    if top == [] then
      assert own == [];
      assert forall i :: 0 <= i < |rows| ==> rows[i].bookId != bookId by {
        forall i | 0 <= i < |rows| ensures rows[i].bookId != bookId {
          assert SummaryEntryOf(rows[i]) !in own;
        }
      }
      None
    else
      InsertionSortSorted(own, LatestFirst);
      SortedFirstLeast(all, LatestFirst);
      assert top[0] == all[0] && all[0] in multiset(all);
      assert top[0] in own;
      assert forall i :: 0 <= i < |rows| && rows[i].bookId == bookId ==> rows[i].generatedDate <= top[0].generatedDate by {
        forall i | 0 <= i < |rows| && rows[i].bookId == bookId
          ensures rows[i].generatedDate <= top[0].generatedDate
        {
          assert SummaryEntryOf(rows[i]) in own;
          assert SummaryEntryOf(rows[i]) in multiset(all);
        }
      }
      Some(top[0])
  }

  // ---------------------------------------------------------------------
  // Effects of UPDATE and DELETE on the row sequences

  /** UPDATE books SET last_accessed = now WHERE id = ?: that book's
      last_accessed becomes now; every other column and every other row is
      left as it was. */
  function Touch(rows: seq<BookRow>, id: int, now: int): (r: seq<BookRow>)
    ensures |r| == |rows|
    ensures forall i :: 0 <= i < |rows| ==> InfoOf(r[i]) == InfoOf(rows[i])
    ensures forall i :: 0 <= i < |rows| ==> r[i].lastAccessed == if rows[i].id == id then now else rows[i].lastAccessed
  {
    seq(|rows|, i requires 0 <= i < |rows| => if rows[i].id == id then rows[i].(lastAccessed := now) else rows[i])
  }

  /** DELETE FROM books WHERE id = ?: the rows with another id, in order.
      Every row of that id goes and every other row stays, as many times as
      it occurred. */
  function WithoutBook(rows: seq<BookRow>, id: int): (r: seq<BookRow>)
    ensures forall i :: 0 <= i < |r| ==> r[i].id != id && r[i] in rows
    ensures forall b :: multiset(r)[b] == if b.id == id then 0 else multiset(rows)[b]
  {
    Filter(rows, (b: BookRow) => b.id != id)
  }

  /** DELETE FROM chat_history WHERE book_id = ?: every turn of that book
      goes, every other turn stays. */
  function WithoutChats(rows: seq<ChatRow>, bookId: int): (r: seq<ChatRow>)
    ensures forall i :: 0 <= i < |r| ==> r[i].bookId != bookId && r[i] in rows
    ensures forall c :: multiset(r)[c] == if c.bookId == bookId then 0 else multiset(rows)[c]
  {
    Filter(rows, (c: ChatRow) => c.bookId != bookId)
  }

  /** DELETE FROM summaries WHERE book_id = ?: every summary of that book
      goes, every other summary stays. */
  function WithoutSummaries(rows: seq<SummaryRow>, bookId: int): (r: seq<SummaryRow>)
    ensures forall i :: 0 <= i < |r| ==> r[i].bookId != bookId && r[i] in rows
    ensures forall x :: multiset(r)[x] == if x.bookId == bookId then 0 else multiset(rows)[x]
  {
    Filter(rows, (x: SummaryRow) => x.bookId != bookId)
  }

  // ---------------------------------------------------------------------
  // Lemmas relating the statements to the queries

  /** A row inserted with a fresh id is what get_book_by_id finds for it. */
  lemma {:induction false} FindInserted(rows: seq<BookRow>, b: BookRow)
    requires forall i :: 0 <= i < |rows| ==> rows[i].id != b.id
    ensures FindBook(rows + [b], b.id) == Some(b)
  {
    if rows != [] {
      assert (rows + [b])[1..] == rows[1..] + [b];
      FindInserted(rows[1..], b);
    }
  }

  /** Inserting a row does not change what other ids find. */
  lemma {:induction false} FindInsertedOther(rows: seq<BookRow>, b: BookRow, id: int)
    requires id != b.id
    ensures FindBook(rows + [b], id) == FindBook(rows, id)
  {
    if rows != [] {
      assert (rows + [b])[1..] == rows[1..] + [b];
      FindInsertedOther(rows[1..], b, id);
    }
  }

  /** Deleting one book does not change what any other id finds. */
  lemma {:induction false} FindAfterDeleteOther(rows: seq<BookRow>, id: int, other: int)
    requires other != id
    ensures FindBook(WithoutBook(rows, id), other) == FindBook(rows, other)
  {
    if rows != [] {
      FindAfterDeleteOther(rows[1..], id, other);
      var rest := WithoutBook(rows[1..], id);
      if rows[0].id != id {
        var w := [rows[0]] + rest;
        assert WithoutBook(rows, id) == w;
        assert w[0] == rows[0] && w[1..] == rest;
      } else {
        assert WithoutBook(rows, id) == rest;
      }
    }
  }

  /** Deleting one book's turns leaves every other book's history as it was. */
  lemma {:induction false} HistoryAfterDeleteOther(rows: seq<ChatRow>, bookId: int, other: int)
    requires other != bookId
    ensures HistoryOf(WithoutChats(rows, bookId), other) == HistoryOf(rows, other)
  {
    if rows != [] {
      HistoryAfterDeleteOther(rows[1..], bookId, other);
      var kept := if rows[0].bookId != bookId then [rows[0]] else [];
      assert WithoutChats(rows, bookId) == kept + WithoutChats(rows[1..], bookId);
      HistoryOfConcat(kept, WithoutChats(rows[1..], bookId), other);
    }
  }

  lemma {:induction false} HistoryOfConcat(a: seq<ChatRow>, b: seq<ChatRow>, bookId: int)
    ensures HistoryOf(a + b, bookId) == HistoryOf(a, bookId) + HistoryOf(b, bookId)
  {
    if a != [] {
      assert (a + b)[1..] == a[1..] + b;
      HistoryOfConcat(a[1..], b, bookId);
    } else {
      assert a + b == b;
    }
  }

  /** Deleting one book's summaries leaves every other book's summaries as they were. */
  lemma {:induction false} SummariesAfterDeleteOther(rows: seq<SummaryRow>, bookId: int, other: int)
    requires other != bookId
    ensures SummariesOf(WithoutSummaries(rows, bookId), other) == SummariesOf(rows, other)
  {
    if rows != [] {
      SummariesAfterDeleteOther(rows[1..], bookId, other);
      var kept := if rows[0].bookId != bookId then [rows[0]] else [];
      assert WithoutSummaries(rows, bookId) == kept + WithoutSummaries(rows[1..], bookId);
      SummariesOfConcat(kept, WithoutSummaries(rows[1..], bookId), other);
    }
  }

  lemma {:induction false} SummariesOfConcat(a: seq<SummaryRow>, b: seq<SummaryRow>, bookId: int)
    ensures SummariesOf(a + b, bookId) == SummariesOf(a, bookId) + SummariesOf(b, bookId)
  {
    if a != [] {
      assert (a + b)[1..] == a[1..] + b;
      SummariesOfConcat(a[1..], b, bookId);
    } else {
      assert a + b == b;
    }
  }

  /** After delete_book(id) nothing of that book is found: no row, no turn,
      no summary. */
  lemma DeletedBookIsGone(books: seq<BookRow>, chats: seq<ChatRow>, summaries: seq<SummaryRow>, id: int, limit: int)
    ensures FindBook(WithoutBook(books, id), id) == None
    ensures ChatHistory(WithoutChats(chats, id), id, limit) == []
    ensures LatestSummary(WithoutSummaries(summaries, id), id) == None
  {
  }

  /** delete_book(id) leaves what every other book's queries return as it
      was: its row, its history under any limit, its latest summary. */
  lemma DeleteKeepsOtherBooks(books: seq<BookRow>, chats: seq<ChatRow>, summaries: seq<SummaryRow>, id: int, other: int, limit: int)
    requires other != id
    ensures FindBook(WithoutBook(books, id), other) == FindBook(books, other)
    ensures ChatHistory(WithoutChats(chats, id), other, limit) == ChatHistory(chats, other, limit)
    ensures LatestSummary(WithoutSummaries(summaries, id), other) == LatestSummary(summaries, other)
  {
    FindAfterDeleteOther(books, id, other);
    HistoryAfterDeleteOther(chats, id, other);
    SummariesAfterDeleteOther(summaries, id, other);
  }

  /** Deleting keeps ids unique. */
  lemma {:induction false} WithoutBookUnique(rows: seq<BookRow>, id: int)
    requires UniqueIds(rows)
    ensures UniqueIds(WithoutBook(rows, id))
  {
    if rows != [] {
      WithoutBookUnique(rows[1..], id);
      WithoutBookFirst(rows, id);
      if rows[0].id != id {
        FirstIdNotKept(rows, id);
        UniqueCons(rows[0], WithoutBook(rows[1..], id));
      }
    }
  }

  /** No row kept from the tail shares the first row's id. */
  lemma FirstIdNotKept(rows: seq<BookRow>, id: int)
    requires rows != [] && UniqueIds(rows)
    ensures forall j :: 0 <= j < |WithoutBook(rows[1..], id)| ==> WithoutBook(rows[1..], id)[j].id != rows[0].id
  {
    var rest := WithoutBook(rows[1..], id);
    forall j | 0 <= j < |rest|
      ensures rest[j].id != rows[0].id
    {
      var k :| 0 <= k < |rows[1..]| && rows[1..][k] == rest[j];
      assert rows[k + 1] == rest[j];
    }
  }

  lemma UniqueCons(row: BookRow, rest: seq<BookRow>)
    requires UniqueIds(rest) && forall j :: 0 <= j < |rest| ==> rest[j].id != row.id
    ensures UniqueIds([row] + rest)
  {
    var all := [row] + rest;
    forall i, j | 0 <= i < j < |all|
      ensures all[i].id != all[j].id
    {
      assert all[j] == rest[j - 1];
      if i > 0 {
        assert all[i] == rest[i - 1];
      }
    }
  }

  /** The delete, one row at a time: the first row stays exactly when its id is another. */
  lemma WithoutBookFirst(rows: seq<BookRow>, id: int)
    requires rows != []
    ensures WithoutBook(rows, id) == (if rows[0].id != id then [rows[0]] else []) + WithoutBook(rows[1..], id)
  {
  }

  /** Touching a book leaves get_book_by_id unchanged except for that book's
      last_accessed, which get_book_by_id does not select. */
  lemma {:induction false} FindAfterTouch(rows: seq<BookRow>, id: int, now: int, other: int)
    ensures var before := FindBook(rows, other);
      var after := FindBook(Touch(rows, id, now), other);
      after.Some? == before.Some? && (after.Some? ==> InfoOf(after.value) == InfoOf(before.value))
  {
    if rows != [] {
      FindAfterTouch(rows[1..], id, now, other);
      assert Touch(rows, id, now)[1..] == Touch(rows[1..], id, now);
    }
  }

  // ---------------------------------------------------------------------
  // Invariants of the tables

  /** Ids are unique and below the AUTOINCREMENT counter, and no timestamp
      is later than the clock. */
  ghost predicate BooksValid(rows: seq<BookRow>, nextId: int, clock: int) {
    && UniqueIds(rows)
    && (forall i :: 0 <= i < |rows| ==> 1 <= rows[i].id < nextId)
    && (forall i :: 0 <= i < |rows| ==> rows[i].uploadDate <= clock && rows[i].lastAccessed <= clock)
  }

  ghost predicate ChatsBefore(rows: seq<ChatRow>, clock: int) {
    forall i :: 0 <= i < |rows| ==> rows[i].timestamp <= clock
  }

  ghost predicate SummariesBefore(rows: seq<SummaryRow>, clock: int) {
    forall i :: 0 <= i < |rows| ==> rows[i].generatedDate <= clock
  }

  lemma WithoutBookValid(rows: seq<BookRow>, id: int, nextId: int, clock: int)
    requires BooksValid(rows, nextId, clock)
    ensures BooksValid(WithoutBook(rows, id), nextId, clock)
  {
    WithoutBookUnique(rows, id);
  }

  lemma WithoutChatsValid(rows: seq<ChatRow>, bookId: int, clock: int)
    requires ChatsBefore(rows, clock)
    ensures ChatsBefore(WithoutChats(rows, bookId), clock)
  {
  }

  lemma WithoutSummariesValid(rows: seq<SummaryRow>, bookId: int, clock: int)
    requires SummariesBefore(rows, clock)
    ensures SummariesBefore(WithoutSummaries(rows, bookId), clock)
  {
  }

  // ---------------------------------------------------------------------
  // The store

  class BookDatabase {
    var books: seq<BookRow>
    var chatHistory: seq<ChatRow>
    var summaries: seq<SummaryRow>
    /** The AUTOINCREMENT sequence of books: the id the next insert gets. */
    var nextBookId: int
    /** The latest CURRENT_TIMESTAMP the store has seen. */
    var clock: int

    ghost predicate Valid()
      reads this
    {
      && 1 <= nextBookId
      && BooksValid(books, nextBookId, clock)
      && ChatsBefore(chatHistory, clock)
      && SummariesBefore(summaries, clock)
    }

    /** init_database on a new file: three empty tables. */
    constructor (now: int)
      ensures Valid()
      ensures books == [] && chatHistory == [] && summaries == []
      ensures nextBookId == 1 && clock == now
    {
      books, chatHistory, summaries := [], [], [];
      nextBookId, clock := 1, now;
    }

    function GetBookById(id: int): Option<BookInfo>
      reads this
    {
      match FindBook(books, id)
      case Some(b) => Some(InfoOf(b))
      case None => None
    }

    function GetAllBooks(): seq<BookListing>
      reads this
    {
      AllBooks(books)
    }

    function GetChatHistory(bookId: int, limit: int := 50): seq<HistoryEntry>
      reads this
    {
      ChatHistory(chatHistory, bookId, limit)
    }

    function GetLatestSummary(bookId: int): Option<SummaryEntry>
      reads this
    {
      LatestSummary(summaries, bookId)
    }

    /** add_book: inserts a row stamped `now` and returns its id, which no
        book ever had (ids only grow, and deleting never lowers nextBookId). */
    method AddBook(now: int, title: string, filename: string, filePath: string, collectionName: string,
                   pages: Option<int> := Some(0), totalChars: Option<int> := Some(0))
      returns (id: int)
      requires Valid() && clock <= now
      modifies this
      ensures Valid()
      ensures id == old(nextBookId) && nextBookId == id + 1 && clock == now
      ensures forall i :: 0 <= i < |old(books)| ==> old(books)[i].id < id
      ensures books == old(books) + [BookRow(id, title, filename, filePath, collectionName, pages, totalChars, now, now)]
      ensures chatHistory == old(chatHistory) && summaries == old(summaries)
      ensures GetBookById(id) == Some(BookInfo(id, title, filename, filePath, collectionName, pages, totalChars, now))
      ensures forall other :: other != id ==> GetBookById(other) == old(GetBookById(other))
    {
      id := nextBookId;
      var row := BookRow(id, title, filename, filePath, collectionName, pages, totalChars, now, now);
      FindInserted(books, row);
      forall other | other != id
        ensures FindBook(books + [row], other) == FindBook(books, other)
      {
        FindInsertedOther(books, row, other);
      }
      books := books + [row];
      nextBookId := nextBookId + 1;
      clock := now;
    }

    /** update_last_accessed: only that book's last_accessed changes, and it
        becomes the latest in the store. */
    method UpdateLastAccessed(now: int, bookId: int)
      requires Valid() && clock <= now
      modifies this
      ensures Valid()
      ensures books == Touch(old(books), bookId, now) && clock == now
      ensures chatHistory == old(chatHistory) && summaries == old(summaries) && nextBookId == old(nextBookId)
      ensures forall id :: GetBookById(id) == old(GetBookById(id))
      ensures forall i, j :: 0 <= i < |books| && 0 <= j < |books| && books[i].id == bookId ==> books[j].lastAccessed <= books[i].lastAccessed
    {
      forall id
        ensures var before := FindBook(books, id);
          var after := FindBook(Touch(books, bookId, now), id);
          after.Some? == before.Some? && (after.Some? ==> InfoOf(after.value) == InfoOf(before.value))
      {
        FindAfterTouch(books, bookId, now, id);
      }
      books := Touch(books, bookId, now);
      clock := now;
    }

    /** add_chat_history: one row for the book when the parameters bind;
        otherwise the exception and no row. */
    method AddChatHistory(now: int, bookId: int, question: PyValue, answer: PyValue, sources: PyValue := PyNone)
      returns (r: Outcome<()>)
      requires Valid() && clock <= now
      modifies this
      ensures Valid()
      ensures books == old(books) && summaries == old(summaries) && nextBookId == old(nextBookId)
      ensures match EncodeChat(question, answer, sources)
        case Ok(f) => r == Ok(()) && clock == now
          && chatHistory == old(chatHistory) + [ChatRow(bookId, f.question, f.answer, f.sources, now)]
        case Raised(e) => r == Raised(e) && clock == old(clock) && chatHistory == old(chatHistory)
    {
      match EncodeChat(question, answer, sources)
      case Ok(f) =>
        chatHistory := chatHistory + [ChatRow(bookId, f.question, f.answer, f.sources, now)];
        clock := now;
        r := Ok(());
      case Raised(e) =>
        r := Raised(e);
    }

    /** add_summary: one row for the book when the text binds. */
    method AddSummary(now: int, bookId: int, summary: PyValue)
      returns (r: Outcome<()>)
      requires Valid() && clock <= now
      modifies this
      ensures Valid()
      ensures books == old(books) && chatHistory == old(chatHistory) && nextBookId == old(nextBookId)
      ensures match BindText(summary)
        case Ok(t) => r == Ok(()) && clock == now && summaries == old(summaries) + [SummaryRow(bookId, t, now)]
        case Raised(e) => r == Raised(e) && clock == old(clock) && summaries == old(summaries)
    {
      match BindText(summary)
      case Ok(t) =>
        summaries := summaries + [SummaryRow(bookId, t, now)];
        clock := now;
        r := Ok(());
      case Raised(e) =>
        r := Raised(e);
    }

    /** Replaces the three tables with rows that keep the invariant, as a
        statement that only removes rows does. */
    method SetTables(newBooks: seq<BookRow>, newChats: seq<ChatRow>, newSummaries: seq<SummaryRow>)
      requires 1 <= nextBookId
      requires BooksValid(newBooks, nextBookId, clock) && ChatsBefore(newChats, clock) && SummariesBefore(newSummaries, clock)
      modifies this
      ensures Valid()
      ensures books == newBooks && chatHistory == newChats && summaries == newSummaries
      ensures nextBookId == old(nextBookId) && clock == old(clock)
    {
      books, chatHistory, summaries := newBooks, newChats, newSummaries;
    }

    /** delete_book, table part: the book's row, turns and summaries go;
        other books' rows stay; an unknown id deletes nothing. Returns the
        file path and collection name read before the delete, which the
        on-disk cleanup uses. */
    method DeleteBook(bookId: int) returns (removed: Option<(string, string)>)
      requires Valid()
      modifies this
      ensures Valid()
      ensures removed == match old(FindBook(books, bookId))
        case Some(b) => Some((b.filePath, b.collectionName))
        case None => None
      ensures books == WithoutBook(old(books), bookId)
      ensures chatHistory == WithoutChats(old(chatHistory), bookId)
      ensures summaries == WithoutSummaries(old(summaries), bookId)
      ensures nextBookId == old(nextBookId) && clock == old(clock)
      ensures GetBookById(bookId) == None
    {
      var found := FindBook(books, bookId);
      removed := if found.Some? then Some((found.value.filePath, found.value.collectionName)) else None;
      var newBooks, newChats, newSummaries := WithoutBook(books, bookId), WithoutChats(chatHistory, bookId), WithoutSummaries(summaries, bookId);
      WithoutBookValid(books, bookId, nextBookId, clock);
      WithoutChatsValid(chatHistory, bookId, clock);
      WithoutSummariesValid(summaries, bookId, clock);
      SetTables(newBooks, newChats, newSummaries);
    }
  }
}
