/** The mock outline endpoint: one of the canned outlines, cut to the requested number of
    chapters and titled after the subject. */
module GenerateOutline {
  import opened Wrappers
  import opened Text

  /** The decoded request body; a field the client left out is `None`. */
  datatype Request = Request(subject: Option<string>, audience: Option<string>, numChapters: Option<int>)

  datatype Outline = Outline(title: string, chapters: seq<string>)

  datatype Metadata = Metadata(audience: Option<string>, generatedAt: string, model: string)

  datatype Response =
    | OutlineReply(title: string, chapters: seq<string>, metadata: Metadata)
    | Failed(status: int, error: string)

  const DefaultChapterCount := 8
  const MockModel := "mock-ai-v1"

  /** The canned outlines the endpoint picks from. */
  function MockOutlines(): (r: seq<Outline>)
    ensures |r| == 2
  {
    [ Outline("The Complete Guide to Modern Web Development",
        ["Introduction to Web Technologies", "HTML5 and Semantic Markup", "CSS3 and Modern Styling",
         "JavaScript Fundamentals", "React and Component Architecture",
         "Node.js and Server-Side Development", "Database Integration", "Deployment and DevOps",
         "Performance Optimization", "Future Trends"]),
      Outline("Mastering Remote Team Leadership",
        ["The Remote Revolution", "Building Trust Virtually", "Communication Strategies",
         "Tool Selection and Setup", "Managing Performance", "Team Culture and Engagement",
         "Conflict Resolution", "Work-Life Balance", "Scaling Remote Teams", "The Future of Work"]) ]
  }

  /** Where `slice(0, end)` stops on a list of length `len`: a negative end counts from the
      back, and the end is clamped to the list. */
  function SliceEnd(end: int, len: nat): (k: nat)
    ensures k <= len
    ensures 0 <= end ==> k == if end < len then end else len
    ensures end < 0 ==> k == if len + end > 0 then len + end else 0
  {
    if end < 0 then (if len + end > 0 then len + end else 0)
    else if end < len then end else len
  }

  /** The reply for a body `body` (`None`: it could not be decoded), the canned outline
      `mock` that the random draw picked, and the clock reading `now`. */
  function Outcome(body: Option<Request>, mock: Outline, now: string): (r: Response)
    ensures body == None <==> r == Failed(500, "Failed to generate outline")
    ensures body.Some? ==> (
      && r.OutlineReply?
      && r.title == OrElse(body.value.subject, mock.title)
      && r.chapters == mock.chapters[..SliceEnd(body.value.numChapters.GetOr(DefaultChapterCount), |mock.chapters|)]
      && r.metadata == Metadata(body.value.audience, now, MockModel))
  {
    match body
    case None => Failed(500, "Failed to generate outline")
    case Some(req) =>
      var n := req.numChapters.GetOr(DefaultChapterCount);
      OutlineReply(OrElse(req.subject, mock.title), mock.chapters[..SliceEnd(n, |mock.chapters|)], Metadata(req.audience, now, MockModel))
  }

  /** `POST`: the outline drawn by `pick` (the `Math.floor(Math.random() * 2)` index). */
  function Post(body: Option<Request>, pick: nat, now: string): Response
    requires pick < |MockOutlines()|
  {
    Outcome(body, MockOutlines()[pick], now)
  }

  /** The chapters returned are the first ones of the drawn outline, as many as asked for
      when it has that many, otherwise all of it; without a count, eight. */
  lemma ChaptersArePrefix(req: Request, mock: Outline, now: string)
    ensures var r := Outcome(Some(req), mock, now);
      var n := req.numChapters.GetOr(DefaultChapterCount);
      && r.chapters <= mock.chapters
      && (0 <= n ==> |r.chapters| == if n < |mock.chapters| then n else |mock.chapters|)
  {
  }

  /** Every canned outline has ten chapters. */
  lemma MockOutlinesHaveTenChapters(pick: nat)
    requires pick < |MockOutlines()|
    ensures |MockOutlines()[pick].chapters| == 10
  {
  }

  /** With no count given, an outline of at least eight chapters is cut to its first eight;
      every canned outline is one. */
  lemma DefaultEightChapters(subject: Option<string>, audience: Option<string>, mock: Outline, now: string)
    requires |mock.chapters| >= 8
    ensures var r := Outcome(Some(Request(subject, audience, None)), mock, now);
      r.OutlineReply? && |r.chapters| == 8 && r.chapters == mock.chapters[..8]
  {
  }

  /** An empty subject counts as none: the drawn outline's own title is used. */
  lemma EmptySubjectKeepsMockTitle(req: Request, mock: Outline, now: string)
    requires req.subject == None || req.subject == Some("")
    ensures Outcome(Some(req), mock, now).title == mock.title
  {
  }
}
