/** The client-side stores (lib/store.ts): the books store (books, current book, chapters,
    sections), the settings store, the read-only templates store and the separate chapters
    and sections stores. Each action replaces fields of the store; identifiers that the
    source draws from `crypto.randomUUID` and timestamps from the clock are parameters. */
module Store {
  import opened Wrappers
  import opened Seqs
  import opened Sorting
  import opened Text
  import opened Types

  // ---------------------------------------------------------------------------------------
  // Partial updates (`{ ...entity, ...updates }`): a present key overwrites the field; an
  // optional field may be overwritten with `undefined`, hence the nested Option.

  datatype BookPatch = BookPatch(
    title: Option<string>,
    subtitle: Option<Option<string>>,
    author: Option<Option<string>>,
    coverUrl: Option<Option<string>>,
    language: Option<string>,
    audience: Option<string>,
    createdAt: Option<string>,
    updatedAt: Option<string>)

  datatype ChapterPatch = ChapterPatch(
    bookId: Option<Id>,
    title: Option<string>,
    order: Option<int>,
    pitch: Option<Option<string>>)

  datatype SectionPatch = SectionPatch(
    chapterId: Option<Id>,
    heading: Option<Option<string>>,
    bodyMd: Option<string>,
    order: Option<int>,
    issues: Option<Option<seq<string>>>)

  function PatchBook(b: Book, p: BookPatch): (r: Book)
    ensures r.id == b.id
  {
    b.(title := p.title.GetOr(b.title),
       subtitle := p.subtitle.GetOr(b.subtitle),
       author := p.author.GetOr(b.author),
       coverUrl := p.coverUrl.GetOr(b.coverUrl),
       language := p.language.GetOr(b.language),
       audience := p.audience.GetOr(b.audience),
       createdAt := p.createdAt.GetOr(b.createdAt),
       updatedAt := p.updatedAt.GetOr(b.updatedAt))
  }

  function PatchChapter(c: Chapter, p: ChapterPatch): (r: Chapter)
    ensures r.id == c.id
  {
    c.(bookId := p.bookId.GetOr(c.bookId),
       title := p.title.GetOr(c.title),
       order := p.order.GetOr(c.order),
       pitch := p.pitch.GetOr(c.pitch))
  }

  function PatchSection(s: Section, p: SectionPatch): (r: Section)
    ensures r.id == s.id
  {
    s.(chapterId := p.chapterId.GetOr(s.chapterId),
       heading := p.heading.GetOr(s.heading),
       bodyMd := p.bodyMd.GetOr(s.bodyMd),
       order := p.order.GetOr(s.order),
       issues := p.issues.GetOr(s.issues))
  }

  // ---------------------------------------------------------------------------------------
  // The new values the actions compute.

  /** `books.map(b => b.id === id ? { ...b, ...updates } : b)`. */
  function UpdateBooks(books: seq<Book>, id: Id, p: BookPatch): (r: seq<Book>)
    ensures |r| == |books|
    ensures forall i :: 0 <= i < |books| ==>
      r[i] == if books[i].id == id then PatchBook(books[i], p) else books[i]
  {
    seq(|books|, i requires 0 <= i < |books| =>
      if books[i].id == id then PatchBook(books[i], p) else books[i])
  }

  function UpdateChapters(chapters: seq<Chapter>, id: Id, p: ChapterPatch): (r: seq<Chapter>)
    ensures |r| == |chapters|
    ensures forall i :: 0 <= i < |chapters| ==>
      r[i] == if chapters[i].id == id then PatchChapter(chapters[i], p) else chapters[i]
  {
    seq(|chapters|, i requires 0 <= i < |chapters| =>
      if chapters[i].id == id then PatchChapter(chapters[i], p) else chapters[i])
  }

  function UpdateSections(sections: seq<Section>, id: Id, p: SectionPatch): (r: seq<Section>)
    ensures |r| == |sections|
    ensures forall i :: 0 <= i < |sections| ==>
      r[i] == if sections[i].id == id then PatchSection(sections[i], p) else sections[i]
  {
    seq(|sections|, i requires 0 <= i < |sections| =>
      if sections[i].id == id then PatchSection(sections[i], p) else sections[i])
  }

  function RemoveBook(books: seq<Book>, id: Id): seq<Book> {
    Filter(books, (b: Book) => b.id != id)
  }

  function RemoveChapter(chapters: seq<Chapter>, id: Id): seq<Chapter> {
    Filter(chapters, (c: Chapter) => c.id != id)
  }

  function RemoveSection(sections: seq<Section>, id: Id): seq<Section> {
    Filter(sections, (s: Section) => s.id != id)
  }

  /** Removes the sections of chapter `chapterId` (the cascade of `deleteChapter`). */
  function RemoveSectionsOfChapter(sections: seq<Section>, chapterId: Id): seq<Section> {
    Filter(sections, (s: Section) => s.chapterId != chapterId)
  }

  /** The ids of the chapters of book `bookId`. */
  function ChapterIdsOfBook(chapters: seq<Chapter>, bookId: Id): seq<Id> {
    var mine := Filter(chapters, (c: Chapter) => c.bookId == bookId);
    seq(|mine|, i requires 0 <= i < |mine| => mine[i].id)
  }

  /** The sections `deleteBook` keeps: those whose chapter is not a chapter of the book. */
  function RemoveSectionsOfBook(chapters: seq<Chapter>, sections: seq<Section>, bookId: Id): seq<Section> {
    var chapterIds := ChapterIdsOfBook(chapters, bookId);
    Filter(sections, (s: Section) => s.chapterId !in chapterIds)
  }

  function RemoveChaptersOfBook(chapters: seq<Chapter>, bookId: Id): seq<Chapter> {
    Filter(chapters, (c: Chapter) => c.bookId != bookId)
  }

  /** `getChaptersByBookId`: the chapters of the book, stably sorted by `order`. */
  function ChaptersOf(chapters: seq<Chapter>, bookId: Id): (r: seq<Chapter>)
    ensures forall c :: c in r <==> c in chapters && c.bookId == bookId
    ensures SortedBy(r, ChapterOrder)
    ensures multiset(r) == multiset(Filter(chapters, (c: Chapter) => c.bookId == bookId))
  {
    var mine := Filter(chapters, (c: Chapter) => c.bookId == bookId);
    var r := SortBy(mine, ChapterOrder);
    assert forall c :: c in r <==> c in chapters && c.bookId == bookId by {
      forall c ensures c in r <==> c in chapters && c.bookId == bookId {
        SortByMember(mine, ChapterOrder, c);
        FilterMember(chapters, (c: Chapter) => c.bookId == bookId, c);
      }
    }
    r
  }

  /** `getSectionsByChapterId` / `getSectionsByChapter`: the sections of the chapter, stably
      sorted by `order`. */
  function SectionsOf(sections: seq<Section>, chapterId: Id): (r: seq<Section>)
    ensures forall s :: s in r <==> s in sections && s.chapterId == chapterId
    ensures SortedBy(r, SectionOrder)
    ensures multiset(r) == multiset(Filter(sections, (s: Section) => s.chapterId == chapterId))
  {
    var mine := Filter(sections, (s: Section) => s.chapterId == chapterId);
    var r := SortBy(mine, SectionOrder);
    assert forall s :: s in r <==> s in sections && s.chapterId == chapterId by {
      forall s ensures s in r <==> s in sections && s.chapterId == chapterId {
        SortByMember(mine, SectionOrder, s);
        FilterMember(sections, (s: Section) => s.chapterId == chapterId, s);
      }
    }
    r
  }

  function BookIds(books: seq<Book>): set<Id> {
    set b | b in books :: b.id
  }

  function ChapterIds(chapters: seq<Chapter>): set<Id> {
    set c | c in chapters :: c.id
  }

  function SectionIds(sections: seq<Section>): set<Id> {
    set s | s in sections :: s.id
  }

  // ---------------------------------------------------------------------------------------
  // Facts about those values.

  /** Deleting an id removes exactly the entries with that id and keeps the others in
      order; an unknown id leaves the list unchanged. */
  lemma RemoveSectionExact(sections: seq<Section>, id: Id)
    ensures forall s :: s in RemoveSection(sections, id) <==> s in sections && s.id != id
    ensures id !in SectionIds(sections) ==> RemoveSection(sections, id) == sections
  {
    forall s ensures s in RemoveSection(sections, id) <==> s in sections && s.id != id {
      FilterMember(sections, (s: Section) => s.id != id, s);
    }
    if id !in SectionIds(sections) {
      FilterAll(sections, (s: Section) => s.id != id);
    }
  }

  lemma RemoveBookExact(books: seq<Book>, id: Id)
    ensures forall b :: b in RemoveBook(books, id) <==> b in books && b.id != id
    ensures id !in BookIds(books) ==> RemoveBook(books, id) == books
  {
    forall b ensures b in RemoveBook(books, id) <==> b in books && b.id != id {
      FilterMember(books, (b: Book) => b.id != id, b);
    }
    if id !in BookIds(books) {
      FilterAll(books, (b: Book) => b.id != id);
    }
  }

  /** `deleteBook` cascades: no chapter of the book and no section of such a chapter
      survives, and every other chapter and section does. */
  lemma DeleteBookCascade(chapters: seq<Chapter>, sections: seq<Section>, bookId: Id)
    ensures forall c :: c in RemoveChaptersOfBook(chapters, bookId) <==> c in chapters && c.bookId != bookId
    ensures forall s :: s in RemoveSectionsOfBook(chapters, sections, bookId) <==>
      s in sections && !(exists c :: c in chapters && c.bookId == bookId && c.id == s.chapterId)
  {
    forall c ensures c in RemoveChaptersOfBook(chapters, bookId) <==> c in chapters && c.bookId != bookId {
      FilterMember(chapters, (c: Chapter) => c.bookId != bookId, c);
    }
    var mine := Filter(chapters, (c: Chapter) => c.bookId == bookId);
    var ids := ChapterIdsOfBook(chapters, bookId);
    forall s ensures s in RemoveSectionsOfBook(chapters, sections, bookId) <==>
      s in sections && !(exists c :: c in chapters && c.bookId == bookId && c.id == s.chapterId)
    {
      FilterMember(sections, (s: Section) => s.chapterId !in ids, s);
      if s.chapterId in ids {
        var k :| 0 <= k < |ids| && ids[k] == s.chapterId;
        FilterMember(chapters, (c: Chapter) => c.bookId == bookId, mine[k]);
      }
      forall c | c in chapters && c.bookId == bookId && c.id == s.chapterId
        ensures s.chapterId in ids
      {
        FilterMember(chapters, (c: Chapter) => c.bookId == bookId, c);
        var k :| 0 <= k < |mine| && mine[k] == c;
        assert ids[k] == c.id;
      }
    }
  }

  /** The books store's `deleteChapter` removes the chapter's sections; the chapters store's
      `deleteChapter` leaves every section in place. */
  lemma DeleteChapterCascade(sections: seq<Section>, chapterId: Id)
    ensures forall s :: s in RemoveSectionsOfChapter(sections, chapterId) <==>
      s in sections && s.chapterId != chapterId
  {
    forall s ensures s in RemoveSectionsOfChapter(sections, chapterId) <==>
      s in sections && s.chapterId != chapterId
    {
      FilterMember(sections, (s: Section) => s.chapterId != chapterId, s);
    }
  }

  // ---------------------------------------------------------------------------------------
  // The books store.

  /** `createBook`'s argument: a book without id and timestamps. */
  datatype BookDraft = BookDraft(
    title: string,
    subtitle: Option<string>,
    author: Option<string>,
    coverUrl: Option<string>,
    language: string,
    audience: string)

  function BookFromDraft(d: BookDraft, id: Id, now: string): (b: Book)
    ensures b.id == id && b.title == d.title && b.language == d.language && b.audience == d.audience
    ensures b.subtitle == d.subtitle && b.author == d.author && b.coverUrl == d.coverUrl
    ensures b.createdAt == now && b.updatedAt == now
  {
    Book(id, d.title, d.subtitle, d.author, d.coverUrl, d.language, d.audience, now, now)
  }

  class BooksStore {
    var books: seq<Book>
    var currentBook: Option<Book>
    var chapters: seq<Chapter>
    var sections: seq<Section>

    constructor ()
      ensures books == [] && currentBook == None && chapters == [] && sections == []
    {
      books, currentBook, chapters, sections := [], None, [], [];
    }

    method AddBook(book: Book)
      modifies this
      ensures books == old(books) + [book]
      ensures currentBook == old(currentBook) && chapters == old(chapters) && sections == old(sections)
    {
      books := books + [book];
    }

    /** `createBook`: appends one book with the fresh id `id`, stamped `now`, and returns it. */
    method CreateBook(draft: BookDraft, id: Id, now: string) returns (book: Book)
      requires id !in BookIds(books)
      modifies this
      ensures book == BookFromDraft(draft, id, now)
      ensures books == old(books) + [book]
      ensures currentBook == old(currentBook) && chapters == old(chapters) && sections == old(sections)
    {
      book := BookFromDraft(draft, id, now);
      books := books + [book];
    }

    method UpdateBook(id: Id, p: BookPatch)
      modifies this
      ensures books == UpdateBooks(old(books), id, p)
      ensures currentBook == if old(currentBook).Some? && old(currentBook).value.id == id
                             then Some(PatchBook(old(currentBook).value, p)) else old(currentBook)
      ensures chapters == old(chapters) && sections == old(sections)
    {
      books := UpdateBooks(books, id, p);
      if currentBook.Some? && currentBook.value.id == id {
        currentBook := Some(PatchBook(currentBook.value, p));
      }
    }

    /** `deleteBook`: the book, its chapters and their sections go; the current book is
        cleared when it is the deleted one. */
    method DeleteBook(id: Id)
      modifies this
      ensures books == RemoveBook(old(books), id)
      ensures chapters == RemoveChaptersOfBook(old(chapters), id)
      ensures sections == RemoveSectionsOfBook(old(chapters), old(sections), id)
      ensures currentBook == if old(currentBook).Some? && old(currentBook).value.id == id
                             then None else old(currentBook)
    {
      sections := RemoveSectionsOfBook(chapters, sections, id);
      books := RemoveBook(books, id);
      chapters := RemoveChaptersOfBook(chapters, id);
      if currentBook.Some? && currentBook.value.id == id {
        currentBook := None;
      }
    }

    method SetCurrentBook(book: Option<Book>)
      modifies this
      ensures currentBook == book
      ensures books == old(books) && chapters == old(chapters) && sections == old(sections)
    {
      currentBook := book;
    }

    method AddChapter(chapter: Chapter)
      modifies this
      ensures chapters == old(chapters) + [chapter]
      ensures books == old(books) && currentBook == old(currentBook) && sections == old(sections)
    {
      chapters := chapters + [chapter];
    }

    method UpdateChapter(id: Id, p: ChapterPatch)
      modifies this
      ensures chapters == UpdateChapters(old(chapters), id, p)
      ensures books == old(books) && currentBook == old(currentBook) && sections == old(sections)
    {
      chapters := UpdateChapters(chapters, id, p);
    }

    /** The books store's `deleteChapter` also deletes the chapter's sections. */
    method DeleteChapter(id: Id)
      modifies this
      ensures chapters == RemoveChapter(old(chapters), id)
      ensures sections == RemoveSectionsOfChapter(old(sections), id)
      ensures books == old(books) && currentBook == old(currentBook)
    {
      chapters := RemoveChapter(chapters, id);
      sections := RemoveSectionsOfChapter(sections, id);
    }

    method AddSection(section: Section)
      modifies this
      ensures sections == old(sections) + [section]
      ensures books == old(books) && currentBook == old(currentBook) && chapters == old(chapters)
    {
      sections := sections + [section];
    }

    method UpdateSection(id: Id, p: SectionPatch)
      modifies this
      ensures sections == UpdateSections(old(sections), id, p)
      ensures books == old(books) && currentBook == old(currentBook) && chapters == old(chapters)
    {
      sections := UpdateSections(sections, id, p);
    }

    method DeleteSection(id: Id)
      modifies this
      ensures sections == RemoveSection(old(sections), id)
      ensures books == old(books) && currentBook == old(currentBook) && chapters == old(chapters)
    {
      sections := RemoveSection(sections, id);
    }

    function GetChaptersByBookId(bookId: Id): seq<Chapter>
      reads this
    {
      ChaptersOf(chapters, bookId)
    }

    function GetSectionsByChapterId(chapterId: Id): seq<Section>
      reads this
    {
      SectionsOf(sections, chapterId)
    }
  }

  // ---------------------------------------------------------------------------------------
  // The settings store.

  datatype SettingsPatch = SettingsPatch(
    deepseekApiKey: Option<Option<string>>,
    geminiApiKey: Option<Option<string>>,
    openRouterApiKey: Option<Option<string>>,
    sunraApiKey: Option<Option<string>>,
    defaultLanguage: Option<string>,
    defaultTone: Option<Tone>,
    defaultReadingLevel: Option<ReadingLevel>,
    defaultTrimSize: Option<TrimSize>)

  /** `{ ...state, ...updates }`: the given keys change, the others keep their value. */
  function MergeSettings(s: Settings, p: SettingsPatch): Settings {
    Settings(
      p.deepseekApiKey.GetOr(s.deepseekApiKey),
      p.geminiApiKey.GetOr(s.geminiApiKey),
      p.openRouterApiKey.GetOr(s.openRouterApiKey),
      p.sunraApiKey.GetOr(s.sunraApiKey),
      p.defaultLanguage.GetOr(s.defaultLanguage),
      p.defaultTone.GetOr(s.defaultTone),
      p.defaultReadingLevel.GetOr(s.defaultReadingLevel),
      p.defaultTrimSize.GetOr(s.defaultTrimSize))
  }

  /** `defaultSettings`, as a patch: it names six keys and leaves out the DeepSeek and
      Gemini keys. */
  function DefaultSettingsPatch(): SettingsPatch {
    SettingsPatch(None, None, Some(Some("")), Some(Some("")), Some("fr"), Some(Neutral), Some(B2), Some(SixByNine))
  }

  /** The state a fresh settings store starts in. */
  function InitialSettings(): Settings {
    Settings(None, None, Some(""), Some(""), "fr", Neutral, B2, SixByNine)
  }

  /** An update changes exactly the keys it names: a named key takes the given value and
      every other key keeps its value. */
  lemma MergeSettingsOnlyGiven(s: Settings, p: SettingsPatch)
    ensures p.deepseekApiKey.None? ==> MergeSettings(s, p).deepseekApiKey == s.deepseekApiKey
    ensures p.deepseekApiKey.Some? ==> MergeSettings(s, p).deepseekApiKey == p.deepseekApiKey.value
    ensures p.geminiApiKey.None? ==> MergeSettings(s, p).geminiApiKey == s.geminiApiKey
    ensures p.geminiApiKey.Some? ==> MergeSettings(s, p).geminiApiKey == p.geminiApiKey.value
    ensures p.openRouterApiKey.None? ==> MergeSettings(s, p).openRouterApiKey == s.openRouterApiKey
    ensures p.openRouterApiKey.Some? ==> MergeSettings(s, p).openRouterApiKey == p.openRouterApiKey.value
    ensures p.sunraApiKey.None? ==> MergeSettings(s, p).sunraApiKey == s.sunraApiKey
    ensures p.sunraApiKey.Some? ==> MergeSettings(s, p).sunraApiKey == p.sunraApiKey.value
    ensures p.defaultLanguage.None? ==> MergeSettings(s, p).defaultLanguage == s.defaultLanguage
    ensures p.defaultLanguage.Some? ==> MergeSettings(s, p).defaultLanguage == p.defaultLanguage.value
    ensures p.defaultTone.None? ==> MergeSettings(s, p).defaultTone == s.defaultTone
    ensures p.defaultTone.Some? ==> MergeSettings(s, p).defaultTone == p.defaultTone.value
    ensures p.defaultReadingLevel.None? ==> MergeSettings(s, p).defaultReadingLevel == s.defaultReadingLevel
    ensures p.defaultReadingLevel.Some? ==> MergeSettings(s, p).defaultReadingLevel == p.defaultReadingLevel.value
    ensures p.defaultTrimSize.None? ==> MergeSettings(s, p).defaultTrimSize == s.defaultTrimSize
    ensures p.defaultTrimSize.Some? ==> MergeSettings(s, p).defaultTrimSize == p.defaultTrimSize.value
    ensures p == SettingsPatch(None, None, None, None, None, None, None, None) ==> MergeSettings(s, p) == s
  {
  }

  /** `resetSettings` is `set(defaultSettings)`, which merges: the six named keys return to
      their defaults and the DeepSeek and Gemini keys keep whatever they held. */
  lemma ResetSettingsEffect(s: Settings)
    ensures var r := MergeSettings(s, DefaultSettingsPatch());
      r.(deepseekApiKey := None, geminiApiKey := None) == InitialSettings()
      && r.deepseekApiKey == s.deepseekApiKey && r.geminiApiKey == s.geminiApiKey
  {
  }

  class SettingsStore {
    var settings: Settings

    constructor ()
      ensures settings == InitialSettings()
    {
      settings := InitialSettings();
    }

    method UpdateSettings(p: SettingsPatch)
      modifies this
      ensures settings == MergeSettings(old(settings), p)
    {
      settings := MergeSettings(settings, p);
    }

    method ResetSettings()
      modifies this
      ensures settings == MergeSettings(old(settings), DefaultSettingsPatch())
    {
      settings := MergeSettings(settings, DefaultSettingsPatch());
    }
  }

  // ---------------------------------------------------------------------------------------
  // The templates store's search.

  /** Some tag of `t`, lowercased, contains the lowercased query. */
  predicate TagMatches(t: Template, q: string) {
    exists i :: 0 <= i < |t.tags| && Contains(Lower(t.tags[i]), Lower(q))
  }

  /** A template matches the store's search when its lowercased name, description,
      category or any tag contains the lowercased query. */
  predicate StoreSearchMatches(t: Template, q: string) {
    Contains(Lower(t.name), Lower(q))
    || Contains(Lower(t.description), Lower(q))
    || Contains(Lower(CategoryName(t.category)), Lower(q))
    || TagMatches(t, q)
  }

  /** `searchTemplates`: every template for an empty query, otherwise the matching ones in
      their original order. */
  function SearchTemplates(templates: seq<Template>, query: string): (r: seq<Template>)
    ensures query == [] ==> r == templates
    ensures query != [] ==> forall t :: t in r <==> t in templates && StoreSearchMatches(t, query)
    ensures IsSubsequence(r, templates)
  {
    FilterSubsequence(templates, (t: Template) => query == [] || StoreSearchMatches(t, query));
    if query == [] then
      FilterAll(templates, (t: Template) => query == [] || StoreSearchMatches(t, query));
      templates
    else
      var r := Filter(templates, (t: Template) => query == [] || StoreSearchMatches(t, query));
      assert forall t :: t in r <==> t in templates && StoreSearchMatches(t, query) by {
        forall t ensures t in r <==> t in templates && StoreSearchMatches(t, query) {
          FilterMember(templates, (t: Template) => query == [] || StoreSearchMatches(t, query), t);
        }
      }
      r
  }

  // ---------------------------------------------------------------------------------------
  // The separate chapters and sections stores.

  /** `createChapter`'s argument: a chapter without id. */
  datatype ChapterDraft = ChapterDraft(bookId: Id, title: string, order: int, pitch: Option<string>)

  function ChapterFromDraft(d: ChapterDraft, id: Id): (c: Chapter)
    ensures c.id == id && c.bookId == d.bookId && c.order == d.order
    ensures c.title == d.title && c.pitch == d.pitch
  {
    Chapter(id, d.bookId, d.title, d.order, d.pitch)
  }

  class ChaptersStore {
    var chapters: seq<Chapter>

    constructor ()
      ensures chapters == []
    {
      chapters := [];
    }

    method CreateChapter(draft: ChapterDraft, id: Id) returns (chapter: Chapter)
      requires id !in ChapterIds(chapters)
      modifies this
      ensures chapter == ChapterFromDraft(draft, id)
      ensures chapters == old(chapters) + [chapter]
    {
      chapter := ChapterFromDraft(draft, id);
      chapters := chapters + [chapter];
    }

    method UpdateChapter(id: Id, p: ChapterPatch)
      modifies this
      ensures chapters == UpdateChapters(old(chapters), id, p)
    {
      chapters := UpdateChapters(chapters, id, p);
    }

    /** This store's `deleteChapter` does not touch any section. */
    method DeleteChapter(id: Id)
      modifies this
      ensures chapters == RemoveChapter(old(chapters), id)
    {
      chapters := RemoveChapter(chapters, id);
    }

    function GetChaptersByBook(bookId: Id): seq<Chapter>
      reads this
    {
      ChaptersOf(chapters, bookId)
    }
  }

  /** `createSection`'s argument: a section without id. */
  datatype SectionDraft = SectionDraft(
    chapterId: Id,
    heading: Option<string>,
    bodyMd: string,
    order: int,
    issues: Option<seq<string>>)

  function SectionFromDraft(d: SectionDraft, id: Id): (s: Section)
    ensures s.id == id && s.chapterId == d.chapterId && s.bodyMd == d.bodyMd && s.order == d.order
    ensures s.heading == d.heading
  {
    Section(id, d.chapterId, d.heading, d.bodyMd, d.order, d.issues)
  }

  class SectionsStore {
    var sections: seq<Section>

    constructor ()
      ensures sections == []
    {
      sections := [];
    }

    method CreateSection(draft: SectionDraft, id: Id) returns (section: Section)
      requires id !in SectionIds(sections)
      modifies this
      ensures section == SectionFromDraft(draft, id)
      ensures sections == old(sections) + [section]
    {
      section := SectionFromDraft(draft, id);
      sections := sections + [section];
    }

    method UpdateSection(id: Id, p: SectionPatch)
      modifies this
      ensures sections == UpdateSections(old(sections), id, p)
    {
      sections := UpdateSections(sections, id, p);
    }

    method DeleteSection(id: Id)
      modifies this
      ensures sections == RemoveSection(old(sections), id)
    {
      sections := RemoveSection(sections, id);
    }

    function GetSectionsByChapter(chapterId: Id): seq<Section>
      reads this
    {
      SectionsOf(sections, chapterId)
    }
  }
}
