/** The full-screen preview of a book (`BookPreview`): the generated preview HTML, a zoom
    level moved in steps of ten between 50 and 150, and the flag shown while the PDF export
    runs. */
module BookPreview {
  import opened Sorting
  import opened Types
  import Export

  const InitialZoom := 100
  const MinZoom := 50
  const MaxZoom := 150
  const ZoomStep := 10

  /** The zoom levels the buttons can reach: multiples of ten from 50 to 150. */
  predicate ZoomLevel(zoom: int) {
    MinZoom <= zoom <= MaxZoom && zoom % ZoomStep == 0
  }

  /** `handleZoomIn`: ten more, unless already at 150 or above. */
  function ZoomedIn(zoom: int): (r: int)
    ensures ZoomLevel(zoom) ==> ZoomLevel(r)
    ensures r == zoom <==> zoom >= MaxZoom
  {
    if zoom < MaxZoom then zoom + ZoomStep else zoom
  }

  /** `handleZoomOut`: ten less, unless already at 50 or below. */
  function ZoomedOut(zoom: int): (r: int)
    ensures ZoomLevel(zoom) ==> ZoomLevel(r)
    ensures r == zoom <==> zoom <= MinZoom
  {
    if zoom > MinZoom then zoom - ZoomStep else zoom
  }

  /** The zoom after a run of button presses (`true` for zoom in) from `zoom`. */
  function ZoomAfter(zoom: int, presses: seq<bool>): int
    decreases |presses|
  {
    if presses == [] then zoom
    else ZoomAfter(if presses[0] then ZoomedIn(zoom) else ZoomedOut(zoom), presses[1..])
  }

  /** Whatever the buttons pressed, the zoom shown stays a level from 50 to 150. */
  lemma {:induction false} ZoomStaysInRange(zoom: int, presses: seq<bool>)
    requires ZoomLevel(zoom)
    ensures ZoomLevel(ZoomAfter(zoom, presses))
    ensures MinZoom <= ZoomAfter(zoom, presses) <= MaxZoom
    decreases |presses|
  {
    if presses != [] {
      ZoomStaysInRange(if presses[0] then ZoomedIn(zoom) else ZoomedOut(zoom), presses[1..]);
    }
  }

  /** From a level below the cap, zooming in and then out restores the zoom, and from a
      level above the floor the reverse does too. */
  lemma ZoomRoundTrip(zoom: int)
    requires ZoomLevel(zoom)
    ensures zoom < MaxZoom ==> ZoomedOut(ZoomedIn(zoom)) == zoom
    ensures zoom > MinZoom ==> ZoomedIn(ZoomedOut(zoom)) == zoom
  {
  }

  class Preview {
    const book: Book
    const chapters: array<Chapter>
    const sections: seq<Section>
    var zoom: int
    var isExporting: bool

    ghost predicate Valid()
      reads this
    {
      ZoomLevel(zoom)
    }

    constructor (book: Book, chapters: array<Chapter>, sections: seq<Section>)
      ensures Valid()
      ensures this.book == book && this.chapters == chapters && this.sections == sections
      ensures zoom == InitialZoom && !isExporting
    {
      this.book, this.chapters, this.sections := book, chapters, sections;
      zoom, isExporting := InitialZoom, false;
    }

    /** The HTML shown, computed on every render; as the generator sorts the chapters it is
        given in place, rendering also sorts the caller's chapter array. */
    method PreviewHtml() returns (html: string)
      modifies chapters
      ensures chapters[..] == SortBy(old(chapters[..]), ChapterOrder)
      ensures html == Export.PreviewHtml(Export.Page, book, chapters[..], sections)
    {
      html := Export.GeneratePreviewHtml(book, chapters, sections);
    }

    method ZoomIn()
      requires Valid()
      modifies this
      ensures Valid()
      ensures zoom == ZoomedIn(old(zoom)) && isExporting == old(isExporting)
    {
      if zoom < MaxZoom {
        zoom := zoom + ZoomStep;
      }
    }

    method ZoomOut()
      requires Valid()
      modifies this
      ensures Valid()
      ensures zoom == ZoomedOut(old(zoom)) && isExporting == old(isExporting)
    {
      if zoom > MinZoom {
        zoom := zoom - ZoomStep;
      }
    }

    /** The start of `handleExportPDF`: the button shows the export as running. */
    method BeginExport()
      requires Valid()
      modifies this
      ensures Valid()
      ensures isExporting && zoom == old(zoom)
    {
      isExporting := true;
    }

    /** The `finally` of `handleExportPDF`: whether the export succeeded or threw, the flag
        is cleared. */
    method EndExport()
      requires Valid()
      modifies this
      ensures Valid()
      ensures !isExporting && zoom == old(zoom)
    {
      isExporting := false;
    }
  }

  /** Rendering again changes nothing: the chapters are already sorted, so the second
      render leaves them as they are and shows the same HTML. */
  lemma RenderAgainStable(book: Book, chapters: seq<Chapter>, sections: seq<Section>)
    ensures var once := SortBy(chapters, ChapterOrder);
      SortBy(once, ChapterOrder) == once
      && Export.PreviewHtml(Export.Page, book, SortBy(once, ChapterOrder), sections)
         == Export.PreviewHtml(Export.Page, book, once, sections)
  {
    SortBySorted(SortBy(chapters, ChapterOrder), ChapterOrder);
  }
}
