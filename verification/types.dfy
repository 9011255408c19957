/** The persisted records of the book editor: books, chapters, sections, settings and
    templates (lib/types.ts). Identifiers and timestamps are opaque strings. */
module Types {
  import opened Wrappers

  type Id = string

  /** A book; `subtitle`, `author` and `coverUrl` may be absent. */
  datatype Book = Book(
    id: Id,
    title: string,
    subtitle: Option<string>,
    author: Option<string>,
    coverUrl: Option<string>,
    language: string,
    audience: string,
    createdAt: string,
    updatedAt: string)

  /** A chapter of the book `bookId`, positioned by `order`. */
  datatype Chapter = Chapter(id: Id, bookId: Id, title: string, order: int, pitch: Option<string>)

  /** A section of the chapter `chapterId`: an optional heading, a body that is either plain
      text or an encoded block, and a position `order`. */
  datatype Section = Section(
    id: Id,
    chapterId: Id,
    heading: Option<string>,
    bodyMd: string,
    order: int,
    issues: Option<seq<string>>)

  /** The position keys chapters and sections are sorted by. */
  function ChapterOrder(c: Chapter): int { c.order }
  function SectionOrder(s: Section): int { s.order }

  datatype Tone = Neutral | Friendly | Professional
  datatype ReadingLevel = A2 | B1 | B2 | C1
  datatype TrimSize = A4 | A5 | SixByNine

  datatype Settings = Settings(
    deepseekApiKey: Option<string>,
    geminiApiKey: Option<string>,
    openRouterApiKey: Option<string>,
    sunraApiKey: Option<string>,
    defaultLanguage: string,
    defaultTone: Tone,
    defaultReadingLevel: ReadingLevel,
    defaultTrimSize: TrimSize)

  datatype Category = HowTo | Business | Fiction | Memoir | Academic | SelfHelp

  /** The string a template's category is stored as. */
  function CategoryName(c: Category): string {
    match c
    case HowTo => "how-to"
    case Business => "business"
    case Fiction => "fiction"
    case Memoir => "memoir"
    case Academic => "academic"
    case SelfHelp => "self-help"
  }

  /** Distinct categories are stored as distinct strings, so comparing names compares
      categories. */
  lemma CategoryNameInjective(a: Category, b: Category)
    ensures CategoryName(a) == CategoryName(b) ==> a == b
  {
  }

  datatype TemplateSection = TemplateSection(title: string)

  datatype TemplateChapter = TemplateChapter(
    title: string,
    pitch: Option<string>,
    description: Option<string>,
    sections: Option<seq<TemplateSection>>)

  datatype Template = Template(
    id: Id,
    name: string,
    title: string,
    description: string,
    category: Category,
    tags: seq<string>,
    estimatedTime: string,
    chapterCount: int,
    chapters: seq<TemplateChapter>,
    structure: seq<TemplateChapter>)
}
