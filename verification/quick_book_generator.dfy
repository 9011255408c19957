/** The quick book dialog (`QuickBookGenerator`): from a title and a description it either
    creates an empty book, or asks the generation endpoint for a whole book and saves it
    into the stores, one chapter and one section per generated chapter. */
module QuickBookGenerator {
  import opened Wrappers
  import opened Seqs
  import opened Text
  import opened Types
  import Sorting
  import Store
  import GenerateBook

  /** What the call to the generation endpoint gives back: an error body (its `details` and
      `error` fields) or the generated book. */
  datatype Reply =
    | ReplyFailed(details: Option<string>, error: Option<string>)
    | ReplyBook(book: GenerateBook.GeneratedBook)

  /** The progress message shown under the bar; `StepText` gives the text the dialog
      displays for each. */
  datatype Step =
    | NoStep | CreatingBook | BookCreated | Initializing | GeneratingChapters
    | SavingStructure | CreatingChapters | BookGenerated | Failed(message: string)

  function StepText(step: Step): (text: string)
    ensures step.Failed? ==> text == "\U{274C} " + step.message
    ensures step == NoStep <==> text == ""
  {
    match step
    case NoStep => ""
    case CreatingBook => "\U{1F4DA} Creating your book..."
    case BookCreated => "\U{2705} Book created successfully!"
    case Initializing => "Initializing book generation..."
    case GeneratingChapters => "\U{1F916} Generating chapters and content..."
    case SavingStructure => "\U{1F4DA} Saving book structure..."
    case CreatingChapters => "\U{1F4DD} Creating chapters and content..."
    case BookGenerated => "\U{2705} Book generated successfully!"
    case Failed(message) => "\U{274C} " + message
  }

  /** The message of the thrown error: `details`, else `error`, else a fixed text. */
  function ErrorMessage(details: Option<string>, error: Option<string>): (m: string)
    ensures Truthy(details) ==> m == details.value
    ensures !Truthy(details) && Truthy(error) ==> m == error.value
    ensures !Truthy(details) && !Truthy(error) ==> m == "Failed to generate book"
  {
    if Truthy(details) then details.value
    else if Truthy(error) then error.value
    else "Failed to generate book"
  }

  /** What `handleGenerate` reads from the route's answer: a failed answer's `details` and
      `error`, or the book. */
  function ReplyOf(r: GenerateBook.Response): (reply: Reply)
    ensures reply.ReplyBook? <==> r.Generated?
    ensures r.Generated? ==> reply.book == r.book
    ensures r.ServerError? ==> reply == ReplyFailed(r.details, Some(r.error))
    ensures r.BadRequest? ==> reply == ReplyFailed(None, Some(r.error))
  {
    match r
    case BadRequest(error) => ReplyFailed(None, Some(error))
    case ServerError(error, details) => ReplyFailed(details, Some(error))
    case Generated(book) => ReplyBook(book)
  }

  /** A usable reply with a chapter lacking content fails the generation, and the dialog
      shows the runtime's TypeError message rather than the route's fixed error text. */
  lemma MissingContentShown(fb: GenerateBook.Fallback, req: GenerateBook.Request, content: Option<string>,
                            parse: string -> Option<GenerateBook.ParsedBook>, cover: Option<string>,
                            thrown: string, b: GenerateBook.ParsedBook)
    requires Truthy(req.title) && Truthy(req.apiKey)
    requires GenerateBook.BookData(content, parse) == Some(b)
    requires b.chapters.Some? && !GenerateBook.AllHaveContent(b.chapters.value)
    requires thrown != ""
    ensures var reply := ReplyOf(GenerateBook.Generate(fb, GenerateBook.Decoded(req), GenerateBook.CompletionOk(content), parse, cover, thrown));
      reply.ReplyFailed? && ErrorMessage(reply.details, reply.error) == thrown
  {
    GenerateBook.UsableReplyMapped(fb, req, content, parse, cover, thrown, b);
  }

  /** The book of the empty mode: the trimmed title, the description as subtitle when it is
      not empty, author "Author", in French for a general audience. */
  function EmptyBookDraft(title: string, description: string): (d: Store.BookDraft)
    ensures d.title == Trim(title) && d.author == Some("Author") && d.coverUrl == None
    ensures d.language == "fr" && d.audience == "general"
    ensures d.subtitle == (if description == "" then None else Some(description))
  {
    Store.BookDraft(Trim(title), if description == "" then None else Some(description), Some("Author"), None, "fr", "general")
  }

  /** The book of the generated mode: the fields of the reply's book, copied. */
  function SavedBookDraft(b: GenerateBook.GeneratedBook): (d: Store.BookDraft)
    ensures d.title == b.title && d.subtitle == b.subtitle && d.author == Some(b.author)
    ensures d.language == b.language && d.audience == b.audience && d.coverUrl == b.coverUrl
  {
    Store.BookDraft(b.title, b.subtitle, Some(b.author), b.coverUrl, b.language, b.audience)
  }

  /** The chapter saved for generated chapter `c`: its title, order and pitch. */
  function SavedChapter(c: GenerateBook.GeneratedChapter, bookId: Id, id: Id): (r: Chapter)
    ensures r.id == id && r.bookId == bookId && r.title == c.title && r.order == c.order && r.pitch == Some(c.pitch)
  {
    Chapter(id, bookId, c.title, c.order, Some(c.pitch))
  }

  /** The one section saved for generated chapter `c`: headed by the chapter's title, its
      body the chapter's content, at order 1. */
  function SavedSection(c: GenerateBook.GeneratedChapter, chapterId: Id, id: Id): (r: Section)
    ensures r.id == id && r.chapterId == chapterId && r.heading == Some(c.title)
    ensures r.bodyMd == c.content && r.order == 1 && r.issues == None
  {
    Section(id, chapterId, Some(c.title), c.content, 1, None)
  }

  function SavedChapters(gen: seq<GenerateBook.GeneratedChapter>, bookId: Id, ids: seq<Id>): (r: seq<Chapter>)
    requires |ids| == |gen|
    ensures |r| == |gen| && forall i :: 0 <= i < |gen| ==> r[i] == SavedChapter(gen[i], bookId, ids[i])
  {
    seq(|gen|, i requires 0 <= i < |gen| => SavedChapter(gen[i], bookId, ids[i]))
  }

  function SavedSections(gen: seq<GenerateBook.GeneratedChapter>, chapterIds: seq<Id>, ids: seq<Id>): (r: seq<Section>)
    requires |chapterIds| == |gen| && |ids| == |gen|
    ensures |r| == |gen| && forall i :: 0 <= i < |gen| ==> r[i] == SavedSection(gen[i], chapterIds[i], ids[i])
  {
    seq(|gen|, i requires 0 <= i < |gen| => SavedSection(gen[i], chapterIds[i], ids[i]))
  }

  /** Fresh ids for the saved entities: distinct and unused. */
  predicate FreshIds(ids: seq<Id>, used: set<Id>) {
    Distinct(ids) && forall i :: 0 <= i < |ids| ==> ids[i] !in used
  }

  lemma ChapterIdsSnoc(cs: seq<Chapter>, c: Chapter)
    ensures Store.ChapterIds(cs + [c]) == Store.ChapterIds(cs) + {c.id}
  {
    assert forall x :: x in cs + [c] <==> x in cs || x == c;
  }

  lemma SectionIdsSnoc(ss: seq<Section>, s: Section)
    ensures Store.SectionIds(ss + [s]) == Store.SectionIds(ss) + {s.id}
  {
    assert forall x :: x in ss + [s] <==> x in ss || x == s;
  }

  class Generator {
    var title: string
    var description: string
    var generateContent: bool
    var isGenerating: bool
    var progress: int
    var currentStep: Step
    var generatedBook: Option<Book>

    /** The dialog opened, possibly from a template that fills the title and
        description. */
    constructor (templateTitle: Option<string>, templateDescription: Option<string>)
      ensures title == templateTitle.GetOr("") && description == templateDescription.GetOr("")
      ensures generateContent && !isGenerating && progress == 0 && currentStep == NoStep && generatedBook == None
    {
      title, description := templateTitle.GetOr(""), templateDescription.GetOr("");
      generateContent, isGenerating, progress, currentStep, generatedBook := true, false, 0, NoStep, None;
    }

    /** `handleGenerate`. The OpenRouter key comes from the settings, `reply` is what the
        endpoint answers, and the ids and the time stamp are the ones the stores would
        draw. */
    method Generate(books: Store.BooksStore, chapters: Store.ChaptersStore, sections: Store.SectionsStore,
                    openRouterApiKey: Option<string>, reply: Reply,
                    bookId: Id, chapterIds: seq<Id>, sectionIds: seq<Id>, now: string)
      requires bookId !in Store.BookIds(books.books)
      requires reply.ReplyBook? ==> |chapterIds| == |reply.book.chapters| == |sectionIds|
      requires FreshIds(chapterIds, Store.ChapterIds(chapters.chapters))
      requires FreshIds(sectionIds, Store.SectionIds(sections.sections))
      modifies this`isGenerating, this`progress, this`currentStep, this`generatedBook, books, chapters, sections
      // The form is left as it was, and only the book list of the books store changes.
      ensures title == old(title) && description == old(description) && generateContent == old(generateContent)
      ensures books.currentBook == old(books.currentBook) && books.chapters == old(books.chapters) && books.sections == old(books.sections)
      // A blank title: nothing at all happens.
      ensures Trim(old(title)) == "" ==>
        unchanged(this) && books.books == old(books.books) && chapters.chapters == old(chapters.chapters)
        && sections.sections == old(sections.sections)
      ensures Trim(old(title)) != "" ==> isGenerating
      // The empty mode: one book, no chapter, no section.
      ensures Trim(old(title)) != "" && !old(generateContent) ==>
        books.books == old(books.books) + [Store.BookFromDraft(EmptyBookDraft(old(title), old(description)), bookId, now)]
        && chapters.chapters == old(chapters.chapters) && sections.sections == old(sections.sections)
        && progress == 100 && generatedBook == Some(books.books[|books.books| - 1])
      // The generated mode without a key: nothing is created.
      ensures Trim(old(title)) != "" && old(generateContent) && !Truthy(openRouterApiKey) ==>
        books.books == old(books.books) && chapters.chapters == old(chapters.chapters)
        && sections.sections == old(sections.sections) && progress == 0
      // A failed call: the message is shown, nothing is created, progress stops short.
      ensures Trim(old(title)) != "" && old(generateContent) && Truthy(openRouterApiKey) && reply.ReplyFailed? ==>
        books.books == old(books.books) && chapters.chapters == old(chapters.chapters)
        && sections.sections == old(sections.sections) && progress == 25
        && currentStep == Failed(ErrorMessage(reply.details, reply.error)) && generatedBook == old(generatedBook)
      // A generated book: the book, then one chapter and one section per chapter, in order.
      ensures Trim(old(title)) != "" && old(generateContent) && Truthy(openRouterApiKey) && reply.ReplyBook? ==>
        books.books == old(books.books) + [Store.BookFromDraft(SavedBookDraft(reply.book), bookId, now)]
        && chapters.chapters == old(chapters.chapters) + SavedChapters(reply.book.chapters, bookId, chapterIds)
        && sections.sections == old(sections.sections) + SavedSections(reply.book.chapters, chapterIds, sectionIds)
        && progress == 100 && generatedBook == Some(books.books[|books.books| - 1])
    {
      if Trim(title) == "" {
        return;
      }
      isGenerating := true;
      progress := 0;
      Produce(books, chapters, sections, EmptyBookDraft(title, description), openRouterApiKey, reply, bookId, chapterIds, sectionIds, now);
    }

    /** `handleGenerate` past the title check, in either mode; `draft` is the book of the
        empty mode. */
    method Produce(books: Store.BooksStore, chapters: Store.ChaptersStore, sections: Store.SectionsStore,
                   draft: Store.BookDraft, openRouterApiKey: Option<string>, reply: Reply,
                   bookId: Id, chapterIds: seq<Id>, sectionIds: seq<Id>, now: string)
      requires bookId !in Store.BookIds(books.books)
      requires reply.ReplyBook? ==> |chapterIds| == |reply.book.chapters| == |sectionIds|
      requires FreshIds(chapterIds, Store.ChapterIds(chapters.chapters))
      requires FreshIds(sectionIds, Store.SectionIds(sections.sections))
      modifies this`currentStep, this`progress, this`generatedBook, books, chapters, sections
      ensures books.currentBook == old(books.currentBook) && books.chapters == old(books.chapters) && books.sections == old(books.sections)
      ensures !generateContent ==>
        books.books == old(books.books) + [Store.BookFromDraft(draft, bookId, now)]
        && chapters.chapters == old(chapters.chapters) && sections.sections == old(sections.sections)
        && progress == 100 && generatedBook == Some(books.books[|books.books| - 1])
      ensures generateContent && !Truthy(openRouterApiKey) ==>
        books.books == old(books.books) && chapters.chapters == old(chapters.chapters)
        && sections.sections == old(sections.sections) && progress == old(progress)
      ensures generateContent && Truthy(openRouterApiKey) && reply.ReplyFailed? ==>
        books.books == old(books.books) && chapters.chapters == old(chapters.chapters)
        && sections.sections == old(sections.sections) && progress == 25
        && currentStep == Failed(ErrorMessage(reply.details, reply.error)) && generatedBook == old(generatedBook)
      ensures generateContent && Truthy(openRouterApiKey) && reply.ReplyBook? ==>
        books.books == old(books.books) + [Store.BookFromDraft(SavedBookDraft(reply.book), bookId, now)]
        && chapters.chapters == old(chapters.chapters) + SavedChapters(reply.book.chapters, bookId, chapterIds)
        && sections.sections == old(sections.sections) + SavedSections(reply.book.chapters, chapterIds, sectionIds)
        && progress == 100 && generatedBook == Some(books.books[|books.books| - 1])
    {
      if !generateContent {
        CreateEmptyBook(books, draft, bookId, now);
      } else {
        if !Truthy(openRouterApiKey) {
          return;
        }
        currentStep := Initializing;
        progress := 25;
        currentStep := GeneratingChapters;
        match reply
        case ReplyFailed(details, error) =>
          currentStep := Failed(ErrorMessage(details, error));
        case ReplyBook(book) =>
          SaveGeneratedBook(books, chapters, sections, book, bookId, chapterIds, sectionIds, now);
      }
    }

    /** The empty mode of `handleGenerate`: one book, made from `draft`. */
    method CreateEmptyBook(books: Store.BooksStore, draft: Store.BookDraft, bookId: Id, now: string)
      requires bookId !in Store.BookIds(books.books)
      modifies this`currentStep, this`progress, this`generatedBook, books
      ensures books.books == old(books.books) + [Store.BookFromDraft(draft, bookId, now)]
      ensures books.currentBook == old(books.currentBook) && books.chapters == old(books.chapters) && books.sections == old(books.sections)
      ensures progress == 100 && generatedBook == Some(books.books[|books.books| - 1])
    {
      currentStep := CreatingBook;
      progress := 50;
      var savedBook := books.CreateBook(draft, bookId, now);
      progress := 100;
      currentStep := BookCreated;
      generatedBook := Some(savedBook);
    }

    /** The generated mode of `handleGenerate` once the reply holds a book: the book, then
        its chapters and their sections. */
    method SaveGeneratedBook(books: Store.BooksStore, chapters: Store.ChaptersStore, sections: Store.SectionsStore,
                             book: GenerateBook.GeneratedBook, bookId: Id, chapterIds: seq<Id>, sectionIds: seq<Id>, now: string)
      requires bookId !in Store.BookIds(books.books)
      requires |chapterIds| == |book.chapters| == |sectionIds|
      requires FreshIds(chapterIds, Store.ChapterIds(chapters.chapters))
      requires FreshIds(sectionIds, Store.SectionIds(sections.sections))
      modifies this`currentStep, this`progress, this`generatedBook, books, chapters, sections
      ensures books.books == old(books.books) + [Store.BookFromDraft(SavedBookDraft(book), bookId, now)]
      ensures books.currentBook == old(books.currentBook) && books.chapters == old(books.chapters) && books.sections == old(books.sections)
      ensures chapters.chapters == old(chapters.chapters) + SavedChapters(book.chapters, bookId, chapterIds)
      ensures sections.sections == old(sections.sections) + SavedSections(book.chapters, chapterIds, sectionIds)
      ensures progress == 100 && generatedBook == Some(books.books[|books.books| - 1])
    {
      progress := 75;
      currentStep := SavingStructure;
      var savedBook := books.CreateBook(SavedBookDraft(book), bookId, now);
      progress := 90;
      currentStep := CreatingChapters;
      SaveChapters(chapters, sections, savedBook.id, book.chapters, chapterIds, sectionIds);
      progress := 100;
      currentStep := BookGenerated;
      generatedBook := Some(savedBook);
    }
  }

  /** Saving the chapter with id `ids[i]` leaves the later ids of a distinct list unused. */
  lemma ChaptersStayFresh(cs: seq<Chapter>, c: Chapter, ids: seq<Id>, i: nat)
    requires i < |ids| && Distinct(ids) && c.id == ids[i]
    requires forall j :: i <= j < |ids| ==> ids[j] !in Store.ChapterIds(cs)
    ensures forall j :: i + 1 <= j < |ids| ==> ids[j] !in Store.ChapterIds(cs + [c])
  {
    ChapterIdsSnoc(cs, c);
  }

  lemma SectionsStayFresh(ss: seq<Section>, s: Section, ids: seq<Id>, i: nat)
    requires i < |ids| && Distinct(ids) && s.id == ids[i]
    requires forall j :: i <= j < |ids| ==> ids[j] !in Store.SectionIds(ss)
    ensures forall j :: i + 1 <= j < |ids| ==> ids[j] !in Store.SectionIds(ss + [s])
  {
    SectionIdsSnoc(ss, s);
  }

  /** The `for` loop of `handleGenerate`: for each generated chapter, a chapter of the book
      and then its one section. */
  method SaveChapters(chapters: Store.ChaptersStore, sections: Store.SectionsStore, bookId: Id,
                      gen: seq<GenerateBook.GeneratedChapter>, chapterIds: seq<Id>, sectionIds: seq<Id>)
    requires |chapterIds| == |gen| == |sectionIds|
    requires FreshIds(chapterIds, Store.ChapterIds(chapters.chapters))
    requires FreshIds(sectionIds, Store.SectionIds(sections.sections))
    modifies chapters, sections
    ensures chapters.chapters == old(chapters.chapters) + SavedChapters(gen, bookId, chapterIds)
    ensures sections.sections == old(sections.sections) + SavedSections(gen, chapterIds, sectionIds)
  {
    ghost var c0, s0 := chapters.chapters, sections.sections;
    var i := 0;
    while i < |gen|
      invariant 0 <= i <= |gen|
      invariant |chapters.chapters| == |c0| + i && chapters.chapters[..|c0|] == c0
      invariant forall k :: 0 <= k < i ==> chapters.chapters[|c0| + k] == SavedChapter(gen[k], bookId, chapterIds[k])
      invariant |sections.sections| == |s0| + i && sections.sections[..|s0|] == s0
      invariant forall k :: 0 <= k < i ==> sections.sections[|s0| + k] == SavedSection(gen[k], chapterIds[k], sectionIds[k])
      invariant forall j :: i <= j < |gen| ==> chapterIds[j] !in Store.ChapterIds(chapters.chapters)
      invariant forall j :: i <= j < |gen| ==> sectionIds[j] !in Store.SectionIds(sections.sections)
    {
      ChaptersStayFresh(chapters.chapters, SavedChapter(gen[i], bookId, chapterIds[i]), chapterIds, i);
      SectionsStayFresh(sections.sections, SavedSection(gen[i], chapterIds[i], sectionIds[i]), sectionIds, i);
      SaveChapter(chapters, sections, bookId, gen[i], chapterIds[i], sectionIds[i]);
      i := i + 1;
    }
    assert chapters.chapters == c0 + SavedChapters(gen, bookId, chapterIds);
    assert sections.sections == s0 + SavedSections(gen, chapterIds, sectionIds);
  }

  /** One turn of that loop: the chapter, then its section under the chapter's id. */
  method SaveChapter(chapters: Store.ChaptersStore, sections: Store.SectionsStore, bookId: Id,
                     g: GenerateBook.GeneratedChapter, chapterId: Id, sectionId: Id)
    requires chapterId !in Store.ChapterIds(chapters.chapters)
    requires sectionId !in Store.SectionIds(sections.sections)
    modifies chapters, sections
    ensures chapters.chapters == old(chapters.chapters) + [SavedChapter(g, bookId, chapterId)]
    ensures sections.sections == old(sections.sections) + [SavedSection(g, chapterId, sectionId)]
  {
    var chapter := chapters.CreateChapter(Store.ChapterDraft(bookId, g.title, g.order, Some(g.pitch)), chapterId);
    var _ := sections.CreateSection(Store.SectionDraft(chapter.id, Some(g.title), g.content, 1, None), sectionId);
  }

  /** After a generated book is saved, each of its chapters has exactly one section: the
      one made from that chapter. */
  lemma OneSectionPerChapter(s0: seq<Section>, gen: seq<GenerateBook.GeneratedChapter>, chapterIds: seq<Id>, sectionIds: seq<Id>, k: nat)
    requires |chapterIds| == |gen| == |sectionIds| && Distinct(chapterIds) && k < |gen|
    requires forall s :: s in s0 ==> s.chapterId !in chapterIds
    ensures Store.SectionsOf(s0 + SavedSections(gen, chapterIds, sectionIds), chapterIds[k])
      == [SavedSection(gen[k], chapterIds[k], sectionIds[k])]
  {
    var all := s0 + SavedSections(gen, chapterIds, sectionIds);
    var keep := (s: Section) => s.chapterId == chapterIds[k];
    var one := SavedSection(gen[k], chapterIds[k], sectionIds[k]);
    var saved := SavedSections(gen, chapterIds, sectionIds);
    FilterNone(s0, keep);
    assert saved == saved[..k] + [one] + saved[k + 1..];
    FilterNone(saved[..k], keep);
    FilterNone(saved[k + 1..], keep);
    FilterAppend(saved[..k] + [one], saved[k + 1..], keep);
    FilterAppend(saved[..k], [one], keep);
    FilterAppend(s0, saved, keep);
    assert Filter([one], keep) == [one] by {
      assert [one][1..] == [];
    }
    assert Filter(all, keep) == [one];
    assert Sorting.SortBy([one], SectionOrder) == [one];
  }

  /** The chapters of the new book are exactly the generated ones, in the order of their
      `order` fields (a stable sort keeps reply order among equal orders). */
  lemma BookChaptersAreGenerated(c0: seq<Chapter>, gen: seq<GenerateBook.GeneratedChapter>, bookId: Id, chapterIds: seq<Id>)
    requires |chapterIds| == |gen|
    requires forall c :: c in c0 ==> c.bookId != bookId
    ensures Store.ChaptersOf(c0 + SavedChapters(gen, bookId, chapterIds), bookId)
      == Sorting.SortBy(SavedChapters(gen, bookId, chapterIds), ChapterOrder)
  {
    var saved := SavedChapters(gen, bookId, chapterIds);
    var keep := (c: Chapter) => c.bookId == bookId;
    FilterNone(c0, keep);
    FilterAll(saved, keep);
    FilterAppend(c0, saved, keep);
    assert Filter(c0 + saved, keep) == saved;
  }
}
