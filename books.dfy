/**
 * The book collection of the REST API (src/http-api/main.go): a slice of
 * books held in a global variable and changed in place by the create,
 * update and delete handlers. The JSON request body, the `{id}` path
 * variable and the random mock id are inputs; the reply each handler encodes
 * is the method's result.
 */
module Books {
  import opened Wrappers
  import Decimal
  import Search

  datatype Author = Author(firstname: string, lastname: string)

  /** `Author` is a pointer in the source: None is nil. */
  datatype Book = Book(id: string, isbn: string, title: string, author: Option<Author>)

  /** The zero Book that getBook encodes when nothing matches. */
  const EmptyBook := Book("", "", "", None)

  /** createBook draws its mock id from rand.Intn(1000). */
  const MockIdBound := 1000

  /** The three books main appends before serving, with ids "1", "2", "3". */
  function SeedBooks(): (seed: seq<Book>)
    ensures |seed| == 3
    ensures seed[0].id == "1" && seed[1].id == "2" && seed[2].id == "3"
    ensures DistinctIds(seed)
  {
    [ Book("1", "2345", "Book one", Some(Author("Krish", "Don"))),
      Book("2", "9087", "Book two", Some(Author("John", "Will"))),
      Book("3", "4567", "Book three", Some(Author("Cris", "Quick"))) ]
  }

  predicate DistinctIds(books: seq<Book>) {
    forall i, j :: 0 <= i < j < |books| ==> books[i].id != books[j].id
  }

  /** The key the handlers compare with the `{id}` path variable. */
  function BookId(b: Book): string {
    b.id
  }

  /** What getBook replies: the first match, or the zero Book. */
  function Lookup(books: seq<Book>, id: string): (b: Book)
    ensures (exists j :: 0 <= j < |books| && books[j].id == id) ==>
      exists i :: 0 <= i < |books| && b == books[i] && b.id == id
                  && forall j :: 0 <= j < i ==> books[j].id != id
    ensures (forall j :: 0 <= j < |books| ==> books[j].id != id) ==> b == EmptyBook
  {
    match Search.IndexOf(books, BookId, id)
    case Some(i) => books[i]
    case None => EmptyBook
  }

  /** `append(books[:index], books[index+1:]...)` */
  function RemoveAt(books: seq<Book>, index: nat): (r: seq<Book>)
    requires index < |books|
    ensures |r| == |books| - 1
    ensures forall k :: 0 <= k < index ==> r[k] == books[k]
    ensures forall k :: index <= k < |r| ==> r[k] == books[k + 1]
    ensures multiset(r) + multiset{books[index]} == multiset(books)
  {
    assert books == books[..index] + [books[index]] + books[index + 1..];
    books[..index] + books[index + 1..]
  }

  /** The collection after deleteBook(id): only the first match goes, the rest keep their order. */
  function AfterDelete(books: seq<Book>, id: string): (r: seq<Book>)
    ensures Search.IndexOf(books, BookId, id).None? ==> r == books
    ensures Search.IndexOf(books, BookId, id).Some? ==>
      var i := Search.IndexOf(books, BookId, id).value;
      && |r| == |books| - 1
      && r[..i] == books[..i]
      && r[i..] == books[i + 1..]
      && multiset(r) + multiset{books[i]} == multiset(books)
  {
    match Search.IndexOf(books, BookId, id)
    case Some(i) =>
      var r := RemoveAt(books, i);
      assert r[..i] == books[..i];
      assert r[i..] == books[i + 1..];
      r
    case None => books
  }

  /**
   * The collection after updateBook(id) with the decoded body `decoded`:
   * same length, the first match gone, the others in order, and the decoded
   * book under the requested id last.
   */
  function AfterUpdate(books: seq<Book>, id: string, decoded: Book): (r: seq<Book>)
    ensures Search.IndexOf(books, BookId, id).None? ==> r == books
    ensures Search.IndexOf(books, BookId, id).Some? ==>
      var i := Search.IndexOf(books, BookId, id).value;
      && |r| == |books|
      && r[..i] == books[..i]
      && r[i..|r| - 1] == books[i + 1..]
      && r[|r| - 1] == decoded.(id := id)
      && multiset(r) + multiset{books[i]} == multiset(books) + multiset{decoded.(id := id)}
  {
    match Search.IndexOf(books, BookId, id)
    case Some(i) =>
      var rest := RemoveAt(books, i);
      var r := rest + [decoded.(id := id)];
      assert r[..i] == books[..i];
      assert r[i..|r| - 1] == books[i + 1..];
      assert r[..|r| - 1] == rest;
      r
    case None => books
  }

  /** What updateBook encodes: the stored book, or the whole list when nothing matched. */
  datatype UpdateReply = Updated(book: Book) | NotFound(books: seq<Book>)

  class BookStore {
    var books: seq<Book>

    /** The collection as main leaves it before serving. */
    constructor Seeded()
      ensures books == SeedBooks()
    {
      books := [];
      books := books + [Book("1", "2345", "Book one", Some(Author("Krish", "Don")))];
      books := books + [Book("2", "9087", "Book two", Some(Author("John", "Will")))];
      books := books + [Book("3", "4567", "Book three", Some(Author("Cris", "Quick")))];
    }

    /** getBooks encodes the collection as stored. */
    method GetBooks() returns (all: seq<Book>)
      ensures all == books
    {
      all := books;
    }

    /** getBook: first book with this ID, else the zero Book. */
    method GetBook(id: string) returns (b: Book)
      ensures b == Lookup(books, id)
    {
      var i := 0;
      while i < |books|
        invariant 0 <= i <= |books|
        invariant forall j :: 0 <= j < i ==> books[j].id != id
      {
        if books[i].id == id {
          return books[i];
        }
        i := i + 1;
      }
      return EmptyBook;
    }

    /** createBook: the decoded book gets the mock id and is appended. */
    method CreateBook(decoded: Book, n: nat) returns (created: Book)
      requires n < MockIdBound
      modifies this
      ensures created == decoded.(id := Decimal.FromNat(n))
      ensures books == old(books) + [created]
    {
      var book := decoded;
      book := book.(id := Decimal.FromNat(n));
      books := books + [book];
      created := book;
    }

    /** updateBook: splice out the first match, append the decoded book under the same id. */
    method UpdateBook(id: string, decoded: Book) returns (reply: UpdateReply)
      modifies this
      ensures books == AfterUpdate(old(books), id, decoded)
      ensures Search.IndexOf(old(books), BookId, id).Some? ==> reply == Updated(decoded.(id := id))
      ensures Search.IndexOf(old(books), BookId, id).None? ==> reply == NotFound(books)
    {
      var index := 0;
      while index < |books|
        invariant 0 <= index <= |books|
        invariant books == old(books)
        invariant forall j :: 0 <= j < index ==> books[j].id != id
      {
        if books[index].id == id {
          books := books[..index] + books[index + 1..];
          var book := decoded;
          book := book.(id := id);
          books := books + [book];
          return Updated(book);
        }
        index := index + 1;
      }
      return NotFound(books);
    }

    /** deleteBook: splice out the first match only, then encode the collection. */
    method DeleteBook(id: string) returns (remaining: seq<Book>)
      modifies this
      ensures books == AfterDelete(old(books), id)
      ensures remaining == books
    {
      var index := 0;
      while index < |books|
        invariant 0 <= index <= |books|
        invariant books == old(books)
        invariant forall j :: 0 <= j < index ==> books[j].id != id
      {
        if books[index].id == id {
          books := books[..index] + books[index + 1..];
          break;
        }
        index := index + 1;
      }
      remaining := books;
    }
  }

  // ---------------------------------------------------------------------
  // Properties of the collection operations

  /** With distinct ids, a deleted id is no longer found: getBook gives the zero Book. */
  lemma DeleteThenGetIsEmpty(books: seq<Book>, id: string)
    requires DistinctIds(books)
    ensures Lookup(AfterDelete(books, id), id) == EmptyBook
  {
    match Search.IndexOf(books, BookId, id)
    case None =>
    case Some(i) =>
      var r := AfterDelete(books, id);
      forall k | 0 <= k < |r|
        ensures r[k].id != id
      {
        if k < i {
          assert r[k] == books[k];
        } else {
          assert r[k] == books[k + 1];
        }
      }
  }

  /** Deleting keeps ids distinct. */
  lemma DeletePreservesDistinctIds(books: seq<Book>, id: string)
    requires DistinctIds(books)
    ensures DistinctIds(AfterDelete(books, id))
  {
    match Search.IndexOf(books, BookId, id)
    case None =>
    case Some(i) =>
      var r := AfterDelete(books, id);
      forall a, b | 0 <= a < b < |r|
        ensures r[a].id != r[b].id
      {
        var a' := if a < i then a else a + 1;
        var b' := if b < i then b else b + 1;
        assert r[a] == books[a'] && r[b] == books[b'];
      }
  }

  /** Updating a present id keeps ids distinct, since the new book takes the same id. */
  lemma UpdatePreservesDistinctIds(books: seq<Book>, id: string, decoded: Book)
    requires DistinctIds(books)
    ensures DistinctIds(AfterUpdate(books, id, decoded))
  {
    match Search.IndexOf(books, BookId, id)
    case None =>
    case Some(i) =>
      var rest := RemoveAt(books, i);
      DeletePreservesDistinctIds(books, id);
      assert AfterDelete(books, id) == rest;
      var r := AfterUpdate(books, id, decoded);
      assert r == rest + [decoded.(id := id)];
      forall k | 0 <= k < |rest|
        ensures rest[k].id != id
      {
        if k < i {
          assert rest[k] == books[k];
        } else {
          assert rest[k] == books[k + 1];
        }
      }
      forall a, b | 0 <= a < b < |r|
        ensures r[a].id != r[b].id
      {
        if b == |r| - 1 {
          assert r[a] == rest[a];
        } else {
          assert r[a] == rest[a] && r[b] == rest[b];
        }
      }
  }

  /** With distinct ids, getBook after a successful update gives the new book. */
  lemma UpdateThenGet(books: seq<Book>, id: string, decoded: Book)
    requires DistinctIds(books)
    requires Search.IndexOf(books, BookId, id).Some?
    ensures Lookup(AfterUpdate(books, id, decoded), id) == decoded.(id := id)
  {
    var i := Search.IndexOf(books, BookId, id).value;
    var r := AfterUpdate(books, id, decoded);
    var rest := r[..|r| - 1];
    forall k | 0 <= k < |rest|
      ensures rest[k].id != id
    {
      if k < i {
        assert rest[k] == r[..i][k] == books[k];
      } else {
        assert rest[k] == r[i..|r| - 1][k - i] == books[k + 1];
      }
    }
    assert r == rest + [decoded.(id := id)];
    Search.IndexOfAppendFresh(rest, decoded.(id := id), BookId, id);
  }

  /** getBook on the id a create just assigned gives the created book, if no older book had it. */
  lemma CreateThenGet(books: seq<Book>, decoded: Book, n: nat)
    requires n < MockIdBound
    requires forall j :: 0 <= j < |books| ==> books[j].id != Decimal.FromNat(n)
    ensures Lookup(books + [decoded.(id := Decimal.FromNat(n))], Decimal.FromNat(n))
            == decoded.(id := Decimal.FromNat(n))
  {
    Search.IndexOfAppendFresh(books, decoded.(id := Decimal.FromNat(n)), BookId, Decimal.FromNat(n));
  }

  /**
   * createBook does not check for collisions: on the seeded collection a draw
   * of 2 gives a second book with id "2", and getBook("2") still answers the
   * older one.
   */
  lemma CreateMayDuplicateId(decoded: Book)
    ensures var r := SeedBooks() + [decoded.(id := Decimal.FromNat(2))];
      && !DistinctIds(r)
      && Lookup(r, "2") == SeedBooks()[1]
  {
    var r := SeedBooks() + [decoded.(id := Decimal.FromNat(2))];
    assert Decimal.FromNat(2) == "2";
    assert r[1].id == r[3].id;
    assert Search.IndexOf(SeedBooks(), BookId, "2") == Some(1);
    Search.IndexOfAppendOlder(SeedBooks(), decoded.(id := Decimal.FromNat(2)), BookId, "2");
  }
}
