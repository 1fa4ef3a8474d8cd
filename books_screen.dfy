/** The library search of features/BooksScreen.tsx: a case-insensitive
    substring match of the search term against title and author. */
module BooksScreen {
  import opened Types
  import Seqs
  import Text
  import DataService

  /** The test applied to each book. */
  predicate BookMatches(b: EngineeringBook, term: string)
  {
    || Text.Includes(Text.Lower(b.title), Text.Lower(term))
    || Text.Includes(Text.Lower(b.author), Text.Lower(term))
  }

  function MatchesTerm(term: string): EngineeringBook -> bool
  {
    b => BookMatches(b, term)
  }

  /** The books of `books` that match `term`, in their order. */
  function FilterBooks(books: seq<EngineeringBook>, term: string): (r: seq<EngineeringBook>)
    ensures forall b :: b in r <==> (b in books &&
      (Text.Includes(Text.Lower(b.title), Text.Lower(term)) || Text.Includes(Text.Lower(b.author), Text.Lower(term))))
  {
    Seqs.FilterMembers(books, MatchesTerm(term));
    Seqs.Filter(books, MatchesTerm(term))
  }

  /** The search keeps the library order. */
  lemma FilterBooksInOrder(books: seq<EngineeringBook>, term: string)
    ensures Seqs.SubsequenceOf(FilterBooks(books, term), books)
  {
    Seqs.FilterIsSubsequence(books, MatchesTerm(term));
  }

  /** Each matching book is shown as often as the library holds it, and no
      other book is shown at all. */
  lemma FilterBooksCounts(books: seq<EngineeringBook>, term: string)
    ensures forall b :: multiset(FilterBooks(books, term))[b] ==
              if BookMatches(b, term) then multiset(books)[b] else 0
  {
    Seqs.FilterMultiset(books, MatchesTerm(term));
  }

  /** `filteredBooks`: the library filtered by the current search term. */
  function FilteredBooks(searchTerm: string): seq<EngineeringBook>
  {
    FilterBooks(DataService.EngineeringBooks, searchTerm)
  }

  /** The "No books found" message is shown exactly when nothing matches. */
  function ShowsNoBooksMessage(searchTerm: string): (shown: bool)
    ensures shown <==> FilteredBooks(searchTerm) == []
  {
    |FilteredBooks(searchTerm)| == 0
  }

  /** The empty search term (the initial state) lists every book. */
  lemma {:induction false} EmptyTermListsAll(books: seq<EngineeringBook>)
    ensures FilterBooks(books, "") == books
  {
    forall k | 0 <= k < |books| ensures MatchesTerm("")(books[k]) {
      assert Text.Lower("") == "";
      Text.IncludesEmpty(Text.Lower(books[k].title));
    }
    Seqs.FilterAll(books, MatchesTerm(""));
  }

  /** Search terms that differ only in letter case give the same result. */
  lemma CaseInsensitive(books: seq<EngineeringBook>, t1: string, t2: string)
    requires Text.Lower(t1) == Text.Lower(t2)
    ensures FilterBooks(books, t1) == FilterBooks(books, t2)
  {
    Seqs.FilterExtensional(books, MatchesTerm(t1), MatchesTerm(t2));
  }

  /** A book matches when the term occurs in its lower-cased author. */
  lemma MatchesByAuthor(b: EngineeringBook, term: string, i: nat)
    requires Text.OccursAt(Text.Lower(b.author), Text.Lower(term), i)
    ensures BookMatches(b, term)
  {
    Text.IncludesAt(Text.Lower(b.author), Text.Lower(term), i);
  }

  /** "tanenbaum" finds "Modern Operating Systems" by "Andrew S. Tanenbaum"
      through its author. */
  lemma TanenbaumFound()
    ensures DataService.EngineeringBooks[0] in FilteredBooks("tanenbaum")
  {
    var b := DataService.EngineeringBooks[0];
    var author := Text.Lower(b.author);
    assert author[10..19] == "tanenbaum";
    assert Text.Lower("tanenbaum") == "tanenbaum";
    MatchesByAuthor(b, "tanenbaum", 10);
  }
}
