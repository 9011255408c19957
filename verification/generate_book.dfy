/** The book generation endpoint (`POST /api/generate-book`): the model's reply is taken as
    an input value, the JSON book is cut out of it, validated, replaced by a fixed
    eight-chapter skeleton when anything about it is wrong, and mapped to the book the
    client saves. */
module GenerateBook {
  import opened Wrappers
  import opened Text

  /** The request body; an absent field is `None`. */
  datatype Request = Request(
    title: Option<string>,
    description: Option<string>,
    template: Option<string>,
    apiKey: Option<string>,
    sunraApiKey: Option<string>)

  /** What the route reads from its body: the decoded request, or the message of the error
      thrown when the body does not parse or parses to `null`, which cannot be destructured. */
  datatype RequestBody = Decoded(req: Request) | Undecodable(message: string)

  /** The chat completion call: a failed HTTP status, the first choice's message content
      (absent when the reply has no choice or no content), or the message of the error
      thrown when the call rejects or its reply body is not JSON. */
  datatype Completion =
    | CompletionFailed(statusText: string)
    | CompletionOk(content: Option<string>)
    | CompletionThrew(message: string)

  /** A chapter as the model wrote it: the content and order may be missing. */
  datatype ParsedChapter = ParsedChapter(title: string, content: Option<string>, order: Option<int>)

  /** The decoded book: `chapters` is `None` when missing or not an array. */
  datatype ParsedBook = ParsedBook(title: Option<string>, subtitle: Option<string>, chapters: Option<seq<ParsedChapter>>)

  datatype GeneratedChapter = GeneratedChapter(title: string, content: string, order: int, pitch: string)

  datatype GeneratedBook = GeneratedBook(
    title: string,
    subtitle: Option<string>,
    author: string,
    language: string,
    audience: string,
    coverUrl: Option<string>,
    chapters: seq<GeneratedChapter>)

  /** The reply: 400, 500 (with the message of the error when it is the route's own), or
      the book. */
  datatype Response =
    | BadRequest(error: string)
    | ServerError(error: string, details: Option<string>)
    | Generated(book: GeneratedBook)

  const Fence := "```"
  const JsonFence := "```json"
  const Author := "Generated by MindScribe Pro"

  /** The JSON text in the (trimmed) reply: what follows the first "```json" up to the next
      "```", trimmed; else the whole reply when it opens with '{'; else nothing. */
  function JsonText(content: string): (r: Option<string>)
    ensures !Contains(content, JsonFence) ==> (r.Some? <==> StartsWith(content, "{"))
    ensures !Contains(content, JsonFence) && r.Some? ==> r.value == content
    ensures Contains(content, JsonFence) ==> r.Some?
  {
    if Contains(content, JsonFence) then
      var start := IndexOf(content, JsonFence, 0) + |JsonFence|;
      var end := IndexOf(content, Fence, start);
      Some(Trim(Substring(content, start, end)))
    else if StartsWith(content, "{") then Some(content)
    else None
  }

  /** A fenced block whose fence is closed yields exactly its inside, trimmed. */
  lemma FencedJson(content: string, i: nat, j: nat)
    requires OccursAt(content, JsonFence, i) && forall k :: 0 <= k < i ==> !OccursAt(content, JsonFence, k)
    requires i + |JsonFence| <= j && OccursAt(content, Fence, j)
    requires forall k :: i + |JsonFence| <= k < j ==> !OccursAt(content, Fence, k)
    ensures JsonText(content) == Some(Trim(content[i + |JsonFence|..j]))
  {
    IndexOfFirst(content, JsonFence, 0, i);
    IndexOfFirst(content, Fence, i + |JsonFence|, j);
    assert Contains(content, JsonFence);
  }

  /** What the route accepts from the model: a truthy title and a non-empty chapter
      array. */
  predicate ValidBook(b: ParsedBook) {
    Truthy(b.title) && b.chapters.Some? && |b.chapters.value| > 0
  }

  /** The book read from the completion, or `None` when the fallback applies: no content,
      no JSON, a parse failure (`parse` returns `None`) or an invalid structure. */
  function BookData(content: Option<string>, parse: string -> Option<ParsedBook>): (r: Option<ParsedBook>)
    ensures r.Some? ==> ValidBook(r.value)
    ensures r.Some? ==> content.Some? && JsonText(Trim(content.value)).Some?
    ensures r.Some? ==> parse(JsonText(Trim(content.value)).value) == r
  {
    if content.None? || Trim(content.value) == [] then None
    else match JsonText(Trim(content.value))
      case None => None
      case Some(json) =>
        match parse(json)
        case Some(b) => if ValidBook(b) then Some(b) else None
        case None => None
  }

  /** Decoding a valid book gives it back whatever else the reply holds around it. */
  lemma ValidBookKept(content: string, b: ParsedBook, parse: string -> Option<ParsedBook>)
    requires Trim(content) != [] && JsonText(Trim(content)).Some?
    requires parse(JsonText(Trim(content)).value) == Some(b) && ValidBook(b)
    ensures BookData(Some(content), parse) == Some(b)
  {
  }

  // The fallback skeleton.

  /** The fixed text of the fallback book: its chapter titles, and what every chapter's
      content continues with after naming the chapter. The route's own text is
      `DefaultFallback()`. */
  datatype Fallback = Fallback(titles: seq<string>, tail: string)

  function DefaultFallback(): (fb: Fallback)
    ensures |fb.titles| == 8
  {
    Fallback(FallbackTitles(), FallbackText())
  }

  function FallbackTitles(): (r: seq<string>)
    ensures |r| == 8
  {
      ["Introduction: Getting Started",
       "Understanding the Basics",
       "Core Concepts and Principles",
       "Practical Applications",
       "Advanced Techniques",
       "Real-World Examples",
       "Best Practices",
       "Conclusion and Next Steps"]
  }

  function FallbackText(): string {
    Join(FallbackTail())
  }

  /** The bullet of the fallback text as the source file spells it (a UTF-8 bullet read
      back as three Latin-1/Windows-1252 characters). */
  function Bullet(): string {
    "\U{00E2}\U{20AC}\U{00A2}"
  }

  /** The text of a fallback chapter after its opening words, piece by piece. */
  function FallbackTail(): seq<string> {
    [". Here you'll learn essential concepts and practical approaches that will help you master this topic.\n\nKey topics include:\n",
     Bullet(), " Understanding the fundamental principles\n",
     Bullet(), " Practical implementation strategies  \n",
     Bullet(), " Common challenges and solutions\n",
     Bullet(), " Expert tips and best practices\n\nBy the end of this chapter, you'll have a solid foundation to build upon and apply these concepts in real-world scenarios.\n\n",
     "Remember to take notes and practice the techniques discussed here. The combination of theory and practical application is key to truly mastering any subject.\n\n",
     "This content serves as a starting point that you can expand and customize based on your specific needs and expertise."]
  }

  /** The content of a fallback chapter: it opens by naming the chapter, lowercased. */
  function FallbackContent(fb: Fallback, chapterTitle: string): (r: string)
    ensures StartsWith(r, "This chapter covers " + Lower(chapterTitle))
  {
    StartsWithSelf("This chapter covers " + Lower(chapterTitle), fb.tail);
    "This chapter covers " + Lower(chapterTitle) + fb.tail
  }

  /** The fallback chapters: one per title, with the fixed content, numbered from 1. */
  function Skeleton(fb: Fallback): (r: seq<ParsedChapter>)
    ensures |r| == |fb.titles|
    ensures forall i :: 0 <= i < |fb.titles| ==>
      r[i] == ParsedChapter(fb.titles[i], Some(FallbackContent(fb, fb.titles[i])), Some(i + 1))
  {
    seq(|fb.titles|, i requires 0 <= i < |fb.titles| =>
      ParsedChapter(fb.titles[i], Some(FallbackContent(fb, fb.titles[i])), Some(i + 1)))
  }

  /** The book used when the reply cannot be used: the request's title, its description or
      a generic subtitle, and the fixed chapters numbered from 1. */
  function FallbackBook(fb: Fallback, title: string, description: Option<string>): (b: ParsedBook)
    ensures b.title == Some(title) && b.chapters == Some(Skeleton(fb))
    ensures Truthy(description) ==> b.subtitle == description
    ensures !Truthy(description) ==> b.subtitle == Some("A comprehensive guide to " + Lower(title))
  {
    ParsedBook(
      Some(title),
      Some(if Truthy(description) then description.value else "A comprehensive guide to " + Lower(title)),
      Some(Skeleton(fb)))
  }

  // The mapping to the returned book.

  /** `chapter.content.substring(0, 100) + '...'`. */
  function Pitch(content: string): (r: string)
    ensures |r| <= 103 && (|content| >= 100 ==> |r| == 103)
    ensures r == Prefix(content, 100) + "..." && StartsWith(content, Prefix(content, 100))
  {
    Prefix(content, 100) + "..."
  }

  /** Chapter `index` of the reply: a missing or zero order becomes `index + 1`. */
  function MapChapter(c: ParsedChapter, content: string, index: nat): (r: GeneratedChapter)
    ensures r.title == c.title && r.content == content && r.pitch == Pitch(content)
    ensures c.order.Some? && c.order.value != 0 ==> r.order == c.order.value
    ensures c.order.None? || c.order.value == 0 ==> r.order == index + 1
  {
    var order := if c.order.Some? && c.order.value != 0 then c.order.value else index + 1;
    GeneratedChapter(c.title, content, order, Pitch(content))
  }

  /** Every chapter has its content (the mapping throws at the first that lacks it). */
  predicate AllHaveContent(chapters: seq<ParsedChapter>) {
    forall i :: 0 <= i < |chapters| ==> chapters[i].content.Some?
  }

  function MapChapters(chapters: seq<ParsedChapter>): (r: seq<GeneratedChapter>)
    requires AllHaveContent(chapters)
    ensures |r| == |chapters|
    ensures forall i :: 0 <= i < |chapters| ==> r[i] == MapChapter(chapters[i], chapters[i].content.value, i)
  {
    seq(|chapters|, i requires 0 <= i < |chapters| => MapChapter(chapters[i], chapters[i].content.value, i))
  }

  /** The route: `cover` is what the cover generation yields (its failure or timeout
      gives `None`); it is only asked for with a Sunra key. `thrown` is the message of the
      TypeError the runtime raises when a chapter's `content` is missing and the pitch
      reads its `substring`. */
  function GenerateBook(body: RequestBody, completion: Completion, parse: string -> Option<ParsedBook>, cover: Option<string>, thrown: string): Response {
    Generate(DefaultFallback(), body, completion, parse, cover, thrown)
  }

  /** The route over a given fallback text. Every error thrown in it reaches the one
      `catch`, which answers 500 with the error's message as `details`. */
  function Generate(fb: Fallback, body: RequestBody, completion: Completion, parse: string -> Option<ParsedBook>, cover: Option<string>, thrown: string): (r: Response)
    ensures body.Undecodable? ==> r == ServerError("Failed to generate book", Some(body.message))
    ensures r.BadRequest? <==> body.Decoded? && (!Truthy(body.req.title) || !Truthy(body.req.apiKey))
    ensures r.Generated? ==> body.Decoded? && completion.CompletionOk?
    ensures r.Generated? ==> r.book.author == Author && r.book.language == "fr" && r.book.audience == "general"
    ensures r.Generated? && !Truthy(body.req.sunraApiKey) ==> r.book.coverUrl == None
  {
    match body
    case Undecodable(message) => ServerError("Failed to generate book", Some(message))
    case Decoded(req) =>
      if !Truthy(req.title) || !Truthy(req.apiKey) then
        BadRequest("Title and OpenRouter API key are required")
      else match completion
        case CompletionFailed(statusText) =>
          ServerError("Failed to generate book", Some("OpenRouter API error: " + statusText))
        case CompletionThrew(message) =>
          ServerError("Failed to generate book", Some(message))
        case CompletionOk(content) =>
          var requested := req.title.value;
          var data := match BookData(content, parse)
            case Some(b) => b
            case None => FallbackBook(fb, requested, req.description);
          var chapters := data.chapters.value;
          if !AllHaveContent(chapters) then ServerError("Failed to generate book", Some(thrown))
          else
            Generated(GeneratedBook(
              if Truthy(data.title) then data.title.value else requested,
              data.subtitle,
              Author, "fr", "general",
              if Truthy(req.sunraApiKey) then cover else None,
              MapChapters(chapters)))
  }

  /** When the reply is unusable, the book is the fallback: the request's title and the
      fixed chapters, titled in turn and numbered from 1, each opening with its title. */
  lemma UnusableReplyFallsBack(fb: Fallback, req: Request, content: Option<string>, parse: string -> Option<ParsedBook>, cover: Option<string>, thrown: string)
    requires Truthy(req.title) && Truthy(req.apiKey)
    requires BookData(content, parse) == None
    ensures var r := Generate(fb, Decoded(req), CompletionOk(content), parse, cover, thrown);
      r.Generated? && r.book.title == req.title.value && |r.book.chapters| == |fb.titles|
      && (forall i :: 0 <= i < |fb.titles| ==>
        r.book.chapters[i].order == i + 1 && r.book.chapters[i].title == fb.titles[i]
        && r.book.chapters[i].content == FallbackContent(fb, fb.titles[i]))
      && (Truthy(req.description) ==> r.book.subtitle == req.description)
      && (!Truthy(req.description) ==> r.book.subtitle == Some("A comprehensive guide to " + Lower(req.title.value)))
  {
    var chapters := Skeleton(fb);
    assert AllHaveContent(chapters);
    var mapped := MapChapters(chapters);
    forall i | 0 <= i < |fb.titles|
      ensures mapped[i].order == i + 1 && mapped[i].title == fb.titles[i]
      ensures mapped[i].content == FallbackContent(fb, fb.titles[i])
    {
      assert chapters[i].order == Some(i + 1);
    }
  }

  /** A usable reply keeps its title, subtitle and its chapters, one for one, with their
      titles and contents; a chapter without content turns the whole reply into a 500
      whose details are the thrown TypeError's message. */
  lemma UsableReplyMapped(fb: Fallback, req: Request, content: Option<string>, parse: string -> Option<ParsedBook>, cover: Option<string>, thrown: string, b: ParsedBook)
    requires Truthy(req.title) && Truthy(req.apiKey)
    requires BookData(content, parse) == Some(b)
    ensures b.chapters.Some?
    ensures var r := Generate(fb, Decoded(req), CompletionOk(content), parse, cover, thrown);
      (r.Generated? <==> AllHaveContent(b.chapters.value))
      && (!AllHaveContent(b.chapters.value) <==> r == ServerError("Failed to generate book", Some(thrown)))
      && (r.Generated? ==>
        r.book.title == b.title.value && r.book.subtitle == b.subtitle
        && |r.book.chapters| == |b.chapters.value|
        && forall i :: 0 <= i < |b.chapters.value| ==>
          r.book.chapters[i].title == b.chapters.value[i].title
          && Some(r.book.chapters[i].content) == b.chapters.value[i].content)
  {
  }

  /** A completion call that rejects, or whose reply body is not JSON, is a 500 carrying
      the thrown message. */
  lemma ThrownCompletion(fb: Fallback, req: Request, message: string, parse: string -> Option<ParsedBook>, cover: Option<string>, thrown: string)
    requires Truthy(req.title) && Truthy(req.apiKey)
    ensures Generate(fb, Decoded(req), CompletionThrew(message), parse, cover, thrown)
      == ServerError("Failed to generate book", Some(message))
  {
  }

  /** A failed completion is a 500 carrying the status text. */
  lemma FailedCompletion(fb: Fallback, req: Request, statusText: string, parse: string -> Option<ParsedBook>, cover: Option<string>, thrown: string)
    requires Truthy(req.title) && Truthy(req.apiKey)
    ensures Generate(fb, Decoded(req), CompletionFailed(statusText), parse, cover, thrown)
      == ServerError("Failed to generate book", Some("OpenRouter API error: " + statusText))
  {
  }
}
