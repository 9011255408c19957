/** The in-memory books API: a module-level list that `GET` returns and `POST` appends to. */
module BooksRoute {
  import opened Wrappers
  import opened Text
  import opened Types

  /** The decoded `POST` body. Only these fields are read; anything else the client sends,
      such as a cover URL, is ignored. */
  datatype BookData = BookData(
    title: Option<string>,
    subtitle: Option<string>,
    author: Option<string>,
    coverUrl: Option<string>,
    language: Option<string>,
    audience: Option<string>)

  datatype PostResult = Created(status: int, book: Book) | PostFailed(status: int, error: string)

  const DefaultTitle := "Untitled Book"
  const DefaultLanguage := "fr"
  const DefaultAudience := "general"

  /** The book `POST` stores for `data`, under the fresh id `id` at the clock reading `now`. */
  function NewBook(data: BookData, id: Id, now: string): (b: Book)
    ensures b.id == id && b.createdAt == now && b.updatedAt == now
    ensures b.title == OrElse(data.title, DefaultTitle)
    ensures b.language == OrElse(data.language, DefaultLanguage)
    ensures b.audience == OrElse(data.audience, DefaultAudience)
    ensures b.subtitle == data.subtitle && b.author == data.author
    ensures b.coverUrl == None
  {
    Book(id, OrElse(data.title, DefaultTitle), data.subtitle, data.author, None,
      OrElse(data.language, DefaultLanguage), OrElse(data.audience, DefaultAudience), now, now)
  }

  /** The stored book depends on the body only through title, subtitle, author, language
      and audience. */
  lemma OnlyFiveFieldsCopied(a: BookData, b: BookData, id: Id, now: string)
    requires a.title == b.title && a.subtitle == b.subtitle && a.author == b.author
    requires a.language == b.language && a.audience == b.audience
    ensures NewBook(a, id, now) == NewBook(b, id, now)
  {
  }

  class BooksApi {
    /** The module-level `books` array. */
    var books: seq<Book>

    constructor ()
      ensures books == []
    {
      books := [];
    }

    /** `GET`: every stored book, in the order they were added. */
    method Get() returns (r: seq<Book>)
      ensures r == books
    {
      r := books;
    }

    /** `POST` with the body `body` (`None`: it could not be decoded): the new book is
        appended and returned with status 201; an undecodable body stores nothing. */
    method Post(body: Option<BookData>, id: Id, now: string) returns (r: PostResult)
      modifies this
      ensures body == None ==> r == PostFailed(500, "Failed to create book") && books == old(books)
      ensures body.Some? ==> r == Created(201, NewBook(body.value, id, now)) && books == old(books) + [r.book]
    {
      match body {
        case None =>
          r := PostFailed(500, "Failed to create book");
        case Some(data) =>
          var book := NewBook(data, id, now);
          books := books + [book];
          r := Created(201, book);
      }
    }
  }
}
