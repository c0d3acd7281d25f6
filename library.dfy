/** The list logic of the library page (render_library_page in
    src/ui/main_ui.py): search, the four sort modes, six books per page with
    clamped navigation, and the buttons on each card and in the settings tab. */
module LibraryPage {
  import opened Wrappers
  import opened PyValues
  import opened Seqs
  import opened Database
  import opened Session

  // ---------------------------------------------------------------------
  // Search

  /** `term.lower() in title.lower() or term.lower() in filename.lower()`. */
  predicate MatchesSearch(term: string, b: BookListing) {
    Contains(Lower(term), Lower(b.title)) || Contains(Lower(term), Lower(b.filename))
  }

  /** The search box: an empty term keeps the list as it is; otherwise the
      matching books, in their order. */
  function Search(books: seq<BookListing>, term: string): (r: seq<BookListing>)
    ensures term == "" ==> r == books
    ensures forall b :: multiset(r)[b] == if MatchesSearch(term, b) || term == "" then multiset(books)[b] else 0
  {
    if term == "" then books else Filter(books, (b: BookListing) => MatchesSearch(term, b))
  }

  /** Search keeps exactly the books whose title or filename contains the
      term, ignoring case; the empty term keeps every book. */
  lemma SearchKeepsExactly(books: seq<BookListing>, term: string, b: BookListing)
    ensures b in Search(books, term) <==>
      b in books && (IsSubstring(Lower(term), Lower(b.title)) || IsSubstring(Lower(term), Lower(b.filename)))
  {
    ContainsIsSubstring(Lower(term), Lower(b.title));
    ContainsIsSubstring(Lower(term), Lower(b.filename));
    if term == "" {
      EmptyIsContained(Lower(b.title));
    }
    assert b in Search(books, term) <==> multiset(Search(books, term))[b] > 0;
    assert b in books <==> multiset(books)[b] > 0;
  }

  // ---------------------------------------------------------------------
  // Sorting

  datatype SortMode = Recent | Name | Size | Date

  /** Python's order on str: code point by code point, a prefix first. */
  predicate StrLe(a: string, b: string) {
    if a == [] then true
    else if b == [] then false
    else if a[0] != b[0] then a[0] < b[0]
    else StrLe(a[1..], b[1..])
  }

  lemma {:induction false} StrLeTotal(a: string, b: string)
    ensures StrLe(a, b) || StrLe(b, a)
  {
    if a != [] && b != [] && a[0] == b[0] {
      StrLeTotal(a[1..], b[1..]);
    }
  }

  lemma {:induction false} StrLeTransitive(a: string, b: string, c: string)
    requires StrLe(a, b) && StrLe(b, c)
    ensures StrLe(a, c)
  {
    if a != [] && b != [] && c != [] && a[0] == b[0] && b[0] == c[0] {
      StrLeTransitive(a[1..], b[1..], c[1..]);
    }
  }

  /** Two titles tie under the name order only when they are equal. */
  lemma {:induction false} StrLeAntisymmetric(a: string, b: string)
    requires StrLe(a, b) && StrLe(b, a)
    ensures a == b
  {
    if a != [] && b != [] {
      StrLeAntisymmetric(a[1..], b[1..]);
      assert a == [a[0]] + a[1..] && b == [b[0]] + b[1..];
    }
  }

  /** Name: title ascending. */
  predicate NameOrder(a: BookListing, b: BookListing) {
    StrLe(a.title, b.title)
  }

  /** `x[4] or 0`: a NULL total_chars counts as 0. */
  function SizeKey(b: BookListing): int {
    match b.totalChars
    case None => 0
    case Some(n) => n
  }

  /** Size: total_chars descending. */
  predicate SizeOrder(a: BookListing, b: BookListing) {
    SizeKey(a) >= SizeKey(b)
  }

  /** Date: upload_date descending. */
  predicate DateOrder(a: BookListing, b: BookListing) {
    a.uploadDate >= b.uploadDate
  }

  /** The order each sort mode puts books in (Recent is last_accessed
      descending, the store's own order). */
  function OrderOf(mode: SortMode): (BookListing, BookListing) -> bool {
    match mode
    case Recent => RecentFirst
    case Name => NameOrder
    case Size => SizeOrder
    case Date => DateOrder
  }

  lemma OrderIsPreorder(mode: SortMode)
    ensures TotalPreorder(OrderOf(mode))
  {
    if mode == Name {
      forall a: BookListing, b: BookListing
        ensures NameOrder(a, b) || NameOrder(b, a)
      {
        StrLeTotal(a.title, b.title);
      }
      forall a: BookListing, b: BookListing, c: BookListing | NameOrder(a, b) && NameOrder(b, c)
        ensures NameOrder(a, c)
      {
        StrLeTransitive(a.title, b.title, c.title);
      }
    }
  }

  /** `sorted(books, key=..., reverse=...)` for the chosen mode: a
      permutation of the books, ordered by the mode's key. */
  function SortBooks(books: seq<BookListing>, mode: SortMode): (r: seq<BookListing>)
    ensures multiset(r) == multiset(books)
    ensures SortedBy(r, OrderOf(mode))
  {
    OrderIsPreorder(mode);
    InsertionSortSorted(books, OrderOf(mode));
    InsertionSort(books, OrderOf(mode))
  }

  /** `sorted` is stable, also with reverse=True: books with equal keys keep
      the order the store returned them in. */
  lemma SortIsStable(books: seq<BookListing>, mode: SortMode, y: BookListing)
    ensures Ties(SortBooks(books, mode), OrderOf(mode), y) == Ties(books, OrderOf(mode), y)
  {
    OrderIsPreorder(mode);
    InsertionSortStable(books, OrderOf(mode), y);
  }

  // ---------------------------------------------------------------------
  // Pagination

  const ItemsPerPage: nat := 6

  /** `(n + 6 - 1) // 6`: the fewest pages of six that hold n books. */
  function TotalPages(n: nat): (r: nat)
    ensures r * ItemsPerPage >= n
    ensures r > 0 ==> (r - 1) * ItemsPerPage < n
    ensures n == 0 <==> r == 0
  {
    (n + ItemsPerPage - 1) / ItemsPerPage
  }

  function Min(a: int, b: int): int {
    if a <= b then a else b
  }

  /** `books[start_idx:end_idx]` with start_idx = page * 6 and end_idx =
      min(start_idx + 6, n): at most six books, consecutive in the list,
      empty when the page starts past the end. */
  function PageSlice<T>(items: seq<T>, page: nat): (r: seq<T>)
    ensures |r| <= ItemsPerPage
    ensures |r| == if page * ItemsPerPage >= |items| then 0 else Min(ItemsPerPage, |items| - page * ItemsPerPage)
    ensures forall i :: 0 <= i < |r| ==> page * ItemsPerPage + i < |items| && r[i] == items[page * ItemsPerPage + i]
  {
    var start := page * ItemsPerPage;
    var end := Min(start + ItemsPerPage, |items|);
    if start <= end then items[start..end] else []
  }

  /** The first `count` pages, one after the other. */
  function Pages<T>(items: seq<T>, count: nat): seq<T> {
    if count == 0 then [] else Pages(items, count - 1) + PageSlice(items, count - 1)
  }

  lemma {:induction false} PagesArePrefix<T>(items: seq<T>, count: nat)
    ensures Pages(items, count) == items[..Min(count * ItemsPerPage, |items|)]
  {
    if count > 0 {
      PagesArePrefix(items, count - 1);
      var start := (count - 1) * ItemsPerPage;
      var slice := PageSlice(items, count - 1);
      if start < |items| {
        assert items[..Min(count * ItemsPerPage, |items|)] == items[..start] + slice;
      } else {
        assert slice == [];
      }
    }
  }

  /** The pages partition the list: read in order, they are the list. */
  lemma PagesPartition<T>(items: seq<T>)
    ensures Pages(items, TotalPages(|items|)) == items
  {
    PagesArePrefix(items, TotalPages(|items|));
  }

  /** Book i is on page i / 6, in place i % 6. */
  lemma IndexOnItsPage<T>(items: seq<T>, i: nat)
    requires i < |items|
    ensures i / ItemsPerPage < TotalPages(|items|)
    ensures i % ItemsPerPage < |PageSlice(items, i / ItemsPerPage)|
    ensures PageSlice(items, i / ItemsPerPage)[i % ItemsPerPage] == items[i]
  {
    assert (i / ItemsPerPage) * ItemsPerPage + i % ItemsPerPage == i;
  }

  /** `max(0, page - 1)`. */
  function PreviousPage(page: nat): (r: nat)
    ensures r <= page && (page > 0 ==> r == page - 1)
  {
    if page >= 1 then page - 1 else 0
  }

  /** `min(total_pages - 1, page + 1)`; Next exists only with two pages or more. */
  function NextPage(page: nat, totalPages: nat): (r: nat)
    requires totalPages > 1
    ensures r < totalPages
    ensures page + 1 < totalPages ==> r == page + 1
  {
    Min(totalPages - 1, page + 1)
  }

  /** "Previous": disabled on the first page, and drawn only with two pages or more. */
  method ClickPrevious(session: SessionState, totalPages: nat)
    modifies session
    ensures var enabled := totalPages > 1 && old(session.libraryPage) != 0;
      session.Snap() == if enabled then old(session.Snap()).(libraryPage := PreviousPage(old(session.libraryPage))) else old(session.Snap())
    ensures old(session.libraryPage) < totalPages ==> session.libraryPage < totalPages
  {
    if totalPages > 1 && session.libraryPage != 0 {
      session.libraryPage := PreviousPage(session.libraryPage);
    }
  }

  /** "Next": disabled on the last page, and drawn only with two pages or more.
      From any page it lands on an existing page. */
  method ClickNext(session: SessionState, totalPages: nat)
    modifies session
    ensures var enabled := totalPages > 1 && old(session.libraryPage) != totalPages - 1;
      session.Snap() == if enabled then old(session.Snap()).(libraryPage := NextPage(old(session.libraryPage), totalPages)) else old(session.Snap())
    ensures totalPages > 1 && old(session.libraryPage) != totalPages - 1 ==> session.libraryPage < totalPages
    ensures old(session.libraryPage) < totalPages ==> session.libraryPage < totalPages
  {
    if totalPages > 1 && session.libraryPage != totalPages - 1 {
      session.libraryPage := NextPage(session.libraryPage, totalPages);
    }
  }

  /** The cards drawn as written: the slice at library_page, which nothing
      brings back into range when the list shrinks (a narrower search, a
      deletion). */
  function DisplayedBooksAsWritten(books: seq<BookListing>, page: nat): seq<BookListing> {
    PageSlice(books, page)
  }

  /** A page left over from a longer list shows no card, and when the
      shorter list fits on one page no navigation is drawn to leave it: with
      13 books, Next twice, then a search that matches 3, the page shows
      "3 Book(s)" and none of them. */
  lemma StalePageShowsNothing(books: seq<BookListing>, page: nat)
    requires books != [] && page >= TotalPages(|books|)
    ensures DisplayedBooksAsWritten(books, page) == []
    ensures |books| <= ItemsPerPage ==> !(TotalPages(|books|) > 1)
  {
  }

  /** The page actually shown: library_page, or the last page when it is past the end. */
  function DisplayedPage(n: nat, page: nat): (r: nat)
    ensures n > 0 ==> r < TotalPages(n)
    ensures page < TotalPages(n) ==> r == page
  {
    if page < TotalPages(n) || n == 0 then page else TotalPages(n) - 1
  }

  /** The cards drawn as intended: the slice of the page shown. */
  function DisplayedBooks(books: seq<BookListing>, page: nat): seq<BookListing> {
    PageSlice(books, DisplayedPage(|books|, page))
  }

  /** A non-empty list always shows at least one card, and an index that is
      on a page shows that page as written. */
  lemma DisplayedBooksNonEmpty(books: seq<BookListing>, page: nat)
    ensures books != [] ==> DisplayedBooks(books, page) != []
    ensures page < TotalPages(|books|) ==> DisplayedBooks(books, page) == DisplayedBooksAsWritten(books, page)
  {
    if books != [] {
      var p := DisplayedPage(|books|, page);
      assert p * ItemsPerPage < |books|;
    }
  }

  // ---------------------------------------------------------------------
  // The page

  datatype LibraryView =
    | NoBooks
    | NoMatches
    | Grid(count: nat, totalPages: nat, navigation: bool, shown: seq<BookListing>)

  /** What render_library_page shows for the store's list, the search term,
      the sort mode and library_page. The cards are the slice at
      library_page as it stands: up to six books while the page exists, and
      none once a shorter list has left it past the last page. */
  function RenderLibrary(all: seq<BookListing>, term: string, mode: SortMode, page: nat): (v: LibraryView)
    ensures v.NoBooks? <==> all == []
    ensures v.NoMatches? <==> all != [] && Search(all, term) == []
    ensures v.Grid? ==> v.count == |Search(all, term)| && v.totalPages == TotalPages(v.count)
    ensures v.Grid? ==> v.navigation == (v.totalPages > 1) && |v.shown| <= ItemsPerPage
    ensures v.Grid? ==> (page < v.totalPages ==> v.shown != []) && (page >= v.totalPages ==> v.shown == [])
  {
    if all == [] then NoBooks
    else
      var found := Search(all, term);
      if found == [] then NoMatches
      else
        var sorted := SortBooks(found, mode);
        assert |sorted| == |found|;
        var total := TotalPages(|sorted|);
        Grid(|sorted|, total, total > 1, DisplayedBooksAsWritten(sorted, page))
  }

  /** Every card shown is a stored book that matches the search. */
  lemma ShownBooksMatch(all: seq<BookListing>, term: string, mode: SortMode, page: nat, b: BookListing)
    requires RenderLibrary(all, term, mode, page).Grid? && b in RenderLibrary(all, term, mode, page).shown
    ensures b in all && (IsSubstring(Lower(term), Lower(b.title)) || IsSubstring(Lower(term), Lower(b.filename)))
  {
    var found := Search(all, term);
    var sorted := SortBooks(found, mode);
    var shown := DisplayedBooksAsWritten(sorted, page);
    var i :| 0 <= i < |shown| && shown[i] == b;
    assert b in sorted;
    assert b in multiset(sorted);
    assert b in found;
    SearchKeepsExactly(all, term, b);
  }

  // ---------------------------------------------------------------------
  // Buttons

  /** "Open" on a card: the book becomes current and is touched. */
  method ClickOpen(session: SessionState, db: BookDatabase, bookId: int, now: int)
    requires db.Valid() && db.clock <= now
    modifies session, db
    ensures db.Valid()
    ensures session.Snap() == old(session.Snap()).(currentBookId := Some(bookId))
    ensures db.books == Touch(old(db.books), bookId, now)
    ensures db.chatHistory == old(db.chatHistory) && db.summaries == old(db.summaries)
  {
    session.currentBookId := Some(bookId);
    db.UpdateLastAccessed(now, bookId);
  }

  /** "Info" on a card: the book becomes current and its detail page is shown. */
  method ClickInfo(session: SessionState, bookId: int)
    modifies session
    ensures session.Snap() == old(session.Snap()).(currentBookId := Some(bookId), currentPage := "book_detail")
  {
    session.currentBookId := Some(bookId);
    session.currentPage := "book_detail";
  }

  /** "Delete" on a card: the first click only sets confirm_delete_{id}; the
      second deletes the book, clears current_book_id if it was that book,
      and removes the flag. */
  method ClickDeleteOnCard(session: SessionState, db: BookDatabase, bookId: int)
    requires db.Valid()
    modifies session, db
    ensures db.Valid()
    ensures bookId !in old(session.confirmDelete) ==>
      && unchanged(db)
      && session.Snap() == old(session.Snap()).(confirmDelete := old(session.confirmDelete) + {bookId})
    ensures bookId in old(session.confirmDelete) ==>
      && db.books == WithoutBook(old(db.books), bookId)
      && db.chatHistory == WithoutChats(old(db.chatHistory), bookId)
      && db.summaries == WithoutSummaries(old(db.summaries), bookId)
      && session.Snap() == old(session.Snap()).(
           confirmDelete := old(session.confirmDelete) - {bookId},
           currentBookId := if old(session.currentBookId) == Some(bookId) then None else old(session.currentBookId))
  {
    if bookId in session.confirmDelete {
      var _ := db.DeleteBook(bookId);
      ForgetDeletedBook(session, bookId);
    } else {
      session.confirmDelete := session.confirmDelete + {bookId};
    }
  }

  /** The session side of a confirmed card delete. */
  method ForgetDeletedBook(session: SessionState, bookId: int)
    modifies session
    ensures session.Snap() == old(session.Snap()).(
      confirmDelete := old(session.confirmDelete) - {bookId},
      currentBookId := if old(session.currentBookId) == Some(bookId) then None else old(session.currentBookId))
  {
    if session.currentBookId == Some(bookId) {
      session.currentBookId := None;
    }
    session.confirmDelete := session.confirmDelete - {bookId};
  }

  /** "Delete Book" in the settings tab, drawn only for a current book. The
      confirm_settings_delete flag is one flag for every book: a first click
      on one book arms the second click on whichever book is current then. */
  method ClickSettingsDelete(session: SessionState, db: BookDatabase)
    requires db.Valid() && session.currentBookId.Some?
    modifies session, db
    ensures db.Valid()
    ensures !old(session.confirmSettingsDelete) ==>
      unchanged(db) && session.Snap() == old(session.Snap()).(confirmSettingsDelete := true)
    ensures old(session.confirmSettingsDelete) ==>
      var bookId := old(session.currentBookId).value;
      && db.books == WithoutBook(old(db.books), bookId)
      && db.chatHistory == WithoutChats(old(db.chatHistory), bookId)
      && db.summaries == WithoutSummaries(old(db.summaries), bookId)
      && session.Snap() == old(session.Snap()).(confirmSettingsDelete := false, currentBookId := None)
  {
    if session.confirmSettingsDelete {
      var _ := db.DeleteBook(session.currentBookId.value);
      session.currentBookId := None;
      session.confirmSettingsDelete := false;
    } else {
      session.confirmSettingsDelete := true;
    }
  }
}
