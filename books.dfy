/**
 * The reading list (frontend/src/pages/BookTrack.tsx): drag-and-drop
 * reordering, deletion, the title-casing of new entries and the mapping of
 * search results to books.
 */
module Books {
  import opened Options
  import opened Lists

  /** A book as the page holds it (the `Book` interface). */
  datatype Book = Book(
    id: string, title: string, author: string, status: string,
    startDate: string, endDate: string, thumbnail: string, pages: int, order: int)

  /** The status a book found by search starts with ("being read"). */
  const Reading: string := "Okunuyor"

  // ---------------------------------------------------------------------
  // Reordering
  // ---------------------------------------------------------------------

  /** The list `moveBook` builds: the dragged book taken out and put back in at the hovered position. */
  function Moved(books: seq<Book>, drag: nat, hover: nat): (r: seq<Book>)
    requires drag < |books| && hover < |books|
  {
    Insert(Remove(books, drag), hover, books[drag])
  }

  /** The new list is a permutation of the old one. */
  lemma MovedPermutes(books: seq<Book>, drag: nat, hover: nat)
    requires drag < |books| && hover < |books|
    ensures |Moved(books, drag, hover)| == |books|
    ensures multiset(Moved(books, drag, hover)) == multiset(books)
  {
    var rest := Remove(books, drag);
    assert books == books[..drag] + [books[drag]] + books[drag + 1..];
    assert rest[..hover] + rest[hover..] == rest;
    calc {
      multiset(Moved(books, drag, hover));
      multiset(rest[..hover]) + multiset([books[drag]]) + multiset(rest[hover..]);
      multiset(rest) + multiset([books[drag]]);
      multiset(books[..drag]) + multiset(books[drag + 1..]) + multiset([books[drag]]);
      multiset(books);
    }
  }

  /** The dragged book ends at the hovered position, and the others keep their relative order. */
  lemma MovedPlacesDragged(books: seq<Book>, drag: nat, hover: nat)
    requires drag < |books| && hover < |books|
    ensures Moved(books, drag, hover)[hover] == books[drag]
    ensures Remove(Moved(books, drag, hover), hover) == Remove(books, drag)
  {
    var r := Moved(books, drag, hover);
    var rest := Remove(books, drag);
    assert Remove(r, hover) == rest;
  }

  /**
   * Position by position: outside the span between the two indexes nothing
   * moves; inside it every book shifts one place towards the dragged book's
   * old position.
   */
  lemma MovedAt(books: seq<Book>, drag: nat, hover: nat, i: nat)
    requires drag < |books| && hover < |books| && i < |books|
    ensures Moved(books, drag, hover)[i] ==
      if i == hover then books[drag]
      else if drag < hover && drag <= i < hover then books[i + 1]
      else if hover < drag && hover < i <= drag then books[i - 1]
      else books[i]
  {
  }

  /** Dragging back from the hovered position to the original one restores the list. */
  lemma MovedBack(books: seq<Book>, drag: nat, hover: nat)
    requires drag < |books| && hover < |books|
    ensures |Moved(books, drag, hover)| == |books|
    ensures Moved(Moved(books, drag, hover), hover, drag) == books
  {
    var r := Moved(books, drag, hover);
    MovedPlacesDragged(books, drag, hover);
    assert Remove(r, hover) == Remove(books, drag);
    forall i | 0 <= i < |books|
      ensures Moved(r, hover, drag)[i] == books[i]
    {
      MovedAt(r, hover, drag, i);
      MovedAt(books, drag, hover, i);
      if i != drag {
        if hover < drag && hover <= i < drag {
          MovedAt(books, drag, hover, i + 1);
        } else if drag < hover && drag < i <= hover {
          MovedAt(books, drag, hover, i - 1);
        }
      }
    }
  }

  /** The books renumbered by position: `order` becomes the index. */
  function Renumbered(books: seq<Book>): (r: seq<Book>)
    ensures |r| == |books|
    ensures forall i :: 0 <= i < |r| ==> r[i] == books[i].(order := i)
  {
    seq(|books|, i requires 0 <= i < |books| => books[i].(order := i))
  }

  /** Every book's `order` is its position. */
  predicate OrderIsPosition(books: seq<Book>) {
    forall i :: 0 <= i < |books| ==> books[i].order == i
  }

  /** Renumbering makes `order` the position and leaves renumbered lists as they are. */
  lemma RenumberedOrders(books: seq<Book>)
    ensures OrderIsPosition(Renumbered(books))
    ensures OrderIsPosition(books) ==> Renumbered(books) == books
  {
  }

  /**
   * What a drag sends when the page's list is numbered by position, as it
   * is after any earlier drag: each sent book carries the position it had
   * before this drag, so the payload describes the previous arrangement
   * and not the one on screen.
   */
  lemma SentHoldsPreviousPositions(books: seq<Book>, drag: nat, hover: nat)
    requires drag < |books| && hover < |books| && OrderIsPosition(books)
    ensures |Moved(books, drag, hover)| == |books|
    ensures forall i :: 0 <= i < |books| ==>
      0 <= Moved(books, drag, hover)[i].order < |books| &&
      books[Moved(books, drag, hover)[i].order] == Moved(books, drag, hover)[i]
    ensures Moved(books, drag, hover)[hover].order == drag
  {
    MovedPermutes(books, drag, hover);
    MovedPlacesDragged(books, drag, hover);
    forall i | 0 <= i < |books|
      ensures 0 <= Moved(books, drag, hover)[i].order < |books|
      ensures books[Moved(books, drag, hover)[i].order] == Moved(books, drag, hover)[i]
    {
      MovedAt(books, drag, hover, i);
    }
  }

  /** The page's list of books, reordered and filtered in place of React state. */
  class Shelf {
    var books: seq<Book>

    constructor (books: seq<Book>)
      ensures this.books == books
    {
      this.books := books;
    }

    /**
     * `moveBook`: splice the dragged book out of a copy and back in at the
     * hovered position; the page keeps the renumbered copy and `sent` is the
     * copy as it goes to the server, before renumbering.
     */
    method MoveBook(drag: nat, hover: nat) returns (sent: seq<Book>)
      requires drag < |books| && hover < |books|
      modifies this
      ensures sent == Moved(old(books), drag, hover)
      ensures books == Renumbered(sent)
    {
      var dragged := books[drag];
      var updated := books;
      updated := updated[..drag] + updated[drag + 1..];
      updated := updated[..hover] + [dragged] + updated[hover..];
      books := Renumbered(updated);
      sent := updated;
    }

    /** The drop target's hover handler: a move happens only when the two indexes differ. */
    method Hover(drag: nat, hover: nat) returns (sent: Option<seq<Book>>)
      requires drag < |books| && hover < |books|
      modifies this
      ensures drag == hover ==> sent.None? && books == old(books)
      ensures drag != hover ==> sent == Some(Moved(old(books), drag, hover)) && books == Renumbered(sent.value)
    {
      if drag == hover {
        return None;
      }
      var moved := MoveBook(drag, hover);
      sent := Some(moved);
    }

    /** `deleteBook`: keep the books whose id differs. */
    method DeleteBook(id: string)
      modifies this
      ensures books == WithoutBook(old(books), id)
    {
      books := WithoutBook(books, id);
    }
  }

  // ---------------------------------------------------------------------
  // Deletion
  // ---------------------------------------------------------------------

  /** `books.filter(book => book.id !== id)`. */
  function WithoutBook(books: seq<Book>, id: string): (r: seq<Book>)
    ensures |r| <= |books|
  {
    if books == [] then []
    else if books[0].id == id then WithoutBook(books[1..], id)
    else [books[0]] + WithoutBook(books[1..], id)
  }

  /** Exactly the books with that id go; every other book keeps its multiplicity. */
  lemma {:induction false} WithoutBookCounts(books: seq<Book>, id: string, b: Book)
    ensures multiset(WithoutBook(books, id))[b] == if b.id == id then 0 else multiset(books)[b]
  {
    if books != [] {
      WithoutBookCounts(books[1..], id, b);
      assert books == [books[0]] + books[1..];
    }
  }

  /** Filtering distributes over concatenation, so the kept books stay in their order. */
  lemma {:induction false} WithoutBookAppend(a: seq<Book>, b: seq<Book>, id: string)
    ensures WithoutBook(a + b, id) == WithoutBook(a, id) + WithoutBook(b, id)
  {
    if a != [] {
      WithoutBookAppend(a[1..], b, id);
      assert (a + b)[1..] == a[1..] + b;
    } else {
      assert a + b == b;
    }
  }

  /** Deleting an id no book carries changes nothing. */
  lemma {:induction false} WithoutAbsentBook(books: seq<Book>, id: string)
    requires forall i :: 0 <= i < |books| ==> books[i].id != id
    ensures WithoutBook(books, id) == books
  {
    if books != [] {
      WithoutAbsentBook(books[1..], id);
    }
  }

  /** Strictly increasing `order` values, the weaker shape a deletion leaves behind. */
  predicate OrdersAscending(books: seq<Book>) {
    forall i, j :: 0 <= i < j < |books| ==> books[i].order < books[j].order
  }

  /** Deleting does not renumber: orders stay ascending but may leave gaps. */
  lemma {:induction false} WithoutBookAscending(books: seq<Book>, id: string)
    requires OrdersAscending(books)
    ensures OrdersAscending(WithoutBook(books, id))
    ensures forall i :: 0 <= i < |WithoutBook(books, id)| ==>
      WithoutBook(books, id)[i] in books
  {
    if books != [] {
      WithoutBookAscending(books[1..], id);
      var rest := WithoutBook(books[1..], id);
      forall i | 0 <= i < |rest|
        ensures books[0].order < rest[i].order
      {
        var k :| 0 <= k < |books[1..]| && rest[i] == books[1..][k];
        assert rest[i] == books[k + 1];
      }
    }
  }

  // ---------------------------------------------------------------------
  // Search results
  // ---------------------------------------------------------------------

  /** The part of a search item the page reads (`item.id` and `item.volumeInfo`). */
  datatype Volume = Volume(
    id: string, title: string, authors: Option<seq<string>>,
    thumbnail: Option<string>, pageCount: Option<int>)

  /** `xs.join(sep)`. */
  function Join(xs: seq<string>, sep: string): (r: string)
    ensures |xs| == 1 ==> r == xs[0]
  {
    if xs == [] then ""
    else if |xs| == 1 then xs[0]
    else xs[0] + sep + Join(xs[1..], sep)
  }

  /** A search item as a book: appended at the end of the current list and marked as being read. */
  function FromVolume(v: Volume, listLength: nat): (b: Book)
    ensures b.id == v.id && b.title == v.title
    ensures b.status == Reading && b.startDate == "" && b.endDate == ""
    ensures b.order == listLength
    ensures v.authors.None? ==> b.author == "Unknown"
    ensures v.authors.Some? ==> b.author == Join(v.authors.value, ", ")
    ensures b.pages == if v.pageCount.Some? then v.pageCount.value else 0
    ensures b.thumbnail == if v.thumbnail.Some? then v.thumbnail.value else ""
  {
    Book(
      v.id, v.title,
      if v.authors.Some? then Join(v.authors.value, ", ") else "Unknown",
      Reading, "", "",
      if v.thumbnail.Some? then v.thumbnail.value else "",
      if v.pageCount.Some? && v.pageCount.value != 0 then v.pageCount.value else 0,
      listLength)
  }

  /** Joining with a separator spends the separator once between each pair of names. */
  lemma {:induction false} JoinLength(xs: seq<string>, sep: string)
    requires xs != []
    ensures |Join(xs, sep)| == TotalLength(xs) + (|xs| - 1) * |sep|
  {
    if |xs| > 1 {
      JoinLength(xs[1..], sep);
    }
  }

  /** Sum of the lengths of the strings. */
  function TotalLength(xs: seq<string>): nat {
    if xs == [] then 0 else |xs[0]| + TotalLength(xs[1..])
  }

  /** The search results for the current list: each item numbered with the list's length. */
  function SearchResults(items: seq<Volume>, listLength: nat): (r: seq<Book>)
    ensures |r| == |items|
    ensures forall i :: 0 <= i < |r| ==> r[i] == FromVolume(items[i], listLength)
  {
    seq(|items|, i requires 0 <= i < |items| => FromVolume(items[i], listLength))
  }

  /** Adding a search result to a renumbered list keeps `order` equal to position. */
  lemma AddResultKeepsPositions(books: seq<Book>, v: Volume)
    requires OrderIsPosition(books)
    ensures OrderIsPosition(books + [FromVolume(v, |books|)])
  {
  }

  /**
   * After a deletion the list is not renumbered, so a book added from the
   * search results can take an `order` a remaining book already has.
   */
  lemma DeleteThenAddRepeatsOrder(a: Book, b: Book, c: Book, v: Volume)
    requires a.id != b.id && a.id != c.id
    requires a.order == 0 && b.order == 1 && c.order == 2
    ensures var kept := WithoutBook([a, b, c], a.id);
      var added := kept + [FromVolume(v, |kept|)];
      |added| == 3 && added[1].order == added[2].order
  {
    assert [a, b, c][1..] == [b, c];
    assert [b, c][1..] == [c];
    assert WithoutBook([c], a.id) == [c];
    assert WithoutBook([b, c], a.id) == [b, c];
  }

  // ---------------------------------------------------------------------
  // Title case
  // ---------------------------------------------------------------------

  /** A character of the regular-expression class `\w`. */
  predicate IsWordChar(c: char) {
    ('a' <= c <= 'z') || ('A' <= c <= 'Z') || ('0' <= c <= '9') || c == '_'
  }

  /** A character of the regular-expression class `\s`. */
  predicate IsSpace(c: char) {
    c == ' ' || c == '\t' || c == '\n' || c == '\r' || c == '\U{000B}' || c == '\U{000C}'
    || c == '\U{00A0}' || c == '\U{1680}' || ('\U{2000}' <= c <= '\U{200A}')
    || c == '\U{2028}' || c == '\U{2029}' || c == '\U{202F}' || c == '\U{205F}'
    || c == '\U{3000}' || c == '\U{FEFF}'
  }

  /** Upper case of a letter a-z; every other character is its own upper case here. */
  function Upper(c: char): char {
    if 'a' <= c <= 'z' then (c as int - 32) as char else c
  }

  /** Lower case of a letter A-Z; every other character is its own lower case here. */
  function Lower(c: char): char {
    if 'A' <= c <= 'Z' then (c as int + 32) as char else c
  }

  function LowerAll(s: string): (r: string)
    ensures |r| == |s|
    ensures forall i :: 0 <= i < |s| ==> r[i] == Lower(s[i])
  {
    seq(|s|, i requires 0 <= i < |s| => Lower(s[i]))
  }

  /** Length of the longest prefix of `s` without whitespace (the `\S*` of a match). */
  function RunLength(s: string): (n: nat)
    ensures n <= |s|
    ensures forall j :: 0 <= j < n ==> !IsSpace(s[j])
    ensures n < |s| ==> IsSpace(s[n])
  {
    if s == [] || IsSpace(s[0]) then 0 else 1 + RunLength(s[1..])
  }

  /**
   * `toTitleCase`: every match of `\w\S*`, scanned left to right, becomes
   * its first character upper-cased and the rest lower-cased; characters
   * outside the matches are kept.
   */
  function TitleCase(s: string): (r: string)
    ensures |r| == |s|
    decreases |s|
  {
    if s == [] then ""
    else if IsWordChar(s[0]) then
      var n := 1 + RunLength(s[1..]);
      [Upper(s[0])] + LowerAll(s[1..n]) + TitleCase(s[n..])
    else [s[0]] + TitleCase(s[1..])
  }

  /**
   * Whether `s[i]` continues a match: it is not whitespace and the character
   * before it is a word character or itself continues a match.
   */
  predicate InRun(s: string, i: nat)
    requires i < |s|
  {
    i > 0 && !IsSpace(s[i]) && (IsWordChar(s[i - 1]) || InRun(s, i - 1))
  }

  /** What title casing does to the character at `i`, defined position by position. */
  function TitleCaseAt(s: string, i: nat): char
    requires i < |s|
  {
    if InRun(s, i) then Lower(s[i])
    else if IsWordChar(s[i]) then Upper(s[i])
    else s[i]
  }

  /** Past a point that does not continue a match, matching restarts as on the suffix. */
  lemma {:induction false} InRunShift(s: string, n: nat, i: nat)
    requires n <= i < |s| && !InRun(s, n)
    ensures InRun(s, i) == InRun(s[n..], i - n)
    decreases i
  {
    if i > n {
      InRunShift(s, n, i - 1);
      assert s[n..][i - n - 1] == s[i - 1];
    }
  }

  /** The characters of a match after its first continue it. */
  lemma {:induction false} InRunInside(s: string, i: nat)
    requires 0 < i < |s| && IsWordChar(s[0])
    requires forall j :: 1 <= j <= i ==> !IsSpace(s[j])
    ensures InRun(s, i)
    decreases i
  {
    if i > 1 {
      InRunInside(s, i - 1);
    }
  }

  /** Title casing agrees with its position-by-position definition. */
  lemma {:induction false} TitleCaseIs(s: string, i: nat)
    requires i < |s|
    ensures TitleCase(s)[i] == TitleCaseAt(s, i)
    decreases |s|
  {
    var r := TitleCase(s);
    if IsWordChar(s[0]) {
      var n := 1 + RunLength(s[1..]);
      assert r == [Upper(s[0])] + LowerAll(s[1..n]) + TitleCase(s[n..]);
      if i == 0 {
      } else if i < n {
        assert s[i] == s[1..][i - 1];
        forall j | 1 <= j <= i
          ensures !IsSpace(s[j])
        {
          assert s[j] == s[1..][j - 1];
        }
        InRunInside(s, i);
      } else {
        assert IsSpace(s[n]) by {
          assert s[n] == s[1..][n - 1];
        }
        InRunShift(s, n, i);
        TitleCaseIs(s[n..], i - n);
        assert s[n..][i - n] == s[i];
      }
    } else {
      assert r == [s[0]] + TitleCase(s[1..]);
      if i > 0 {
        InRunShift(s, 1, i);
        TitleCaseIs(s[1..], i - 1);
        assert s[1..][i - 1] == s[i];
      }
    }
  }

  /** Whitespace is left exactly where it was. */
  lemma TitleCaseKeepsSpaces(s: string, i: nat)
    requires i < |s| && IsSpace(s[i])
    ensures TitleCase(s)[i] == s[i]
  {
    TitleCaseIs(s, i);
  }

  /** Case changes keep a character's class, so a title-cased string splits into the same matches. */
  lemma {:induction false} InRunOfTitleCase(s: string, i: nat)
    requires i < |s|
    ensures InRun(TitleCase(s), i) == InRun(s, i)
    decreases i
  {
    var r := TitleCase(s);
    TitleCaseIs(s, i);
    if i > 0 {
      TitleCaseIs(s, i - 1);
      InRunOfTitleCase(s, i - 1);
    }
  }

  /** Title casing an already title-cased string changes nothing. */
  lemma TitleCaseIdempotent(s: string)
    ensures TitleCase(TitleCase(s)) == TitleCase(s)
  {
    var r := TitleCase(s);
    forall i | 0 <= i < |s|
      ensures TitleCase(r)[i] == r[i]
    {
      TitleCaseIs(s, i);
      TitleCaseIs(r, i);
      InRunOfTitleCase(s, i);
    }
  }
}
