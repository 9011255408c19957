/** The page-by-page editor of a book (`CanvaPageEditor`): the book's chapters are its pages,
    sorted by order; the editor keeps the current page and a zoom level, and adds pages
    through the chapters store. */
module CanvaPageEditor {
  import opened Wrappers
  import opened Seqs
  import opened Sorting
  import opened Text
  import opened Types
  import Store

  const InitialZoom := 100
  const MinZoom := 50
  const MaxZoom := 200
  const ZoomStep := 10

  /** `handleZoomIn`: ten more, capped at 200; nothing happens at 200 or above. */
  function ZoomedIn(zoom: int): (r: int)
    ensures MinZoom <= zoom <= MaxZoom ==> MinZoom <= r <= MaxZoom
    ensures zoom <= r <= zoom + ZoomStep
    ensures r == zoom <==> zoom >= MaxZoom
  {
    if zoom < MaxZoom then (if zoom + ZoomStep < MaxZoom then zoom + ZoomStep else MaxZoom) else zoom
  }

  /** `handleZoomOut`: ten less, floored at 50; nothing happens at 50 or below. */
  function ZoomedOut(zoom: int): (r: int)
    ensures MinZoom <= zoom <= MaxZoom ==> MinZoom <= r <= MaxZoom
    ensures zoom - ZoomStep <= r <= zoom
    ensures r == zoom <==> zoom <= MinZoom
  {
    if zoom > MinZoom then (if zoom - ZoomStep > MinZoom then zoom - ZoomStep else MinZoom) else zoom
  }

  /** Zooming in and then out restores a zoom from 50 to 190; near the cap it does not. */
  lemma ZoomInThenOut(zoom: int)
    ensures MinZoom <= zoom <= MaxZoom - ZoomStep ==> ZoomedOut(ZoomedIn(zoom)) == zoom
    ensures MaxZoom - ZoomStep < zoom < MaxZoom ==> ZoomedOut(ZoomedIn(zoom)) == MaxZoom - ZoomStep
  {
  }

  /** `handlePrevPage`: one page back, never below the first. */
  function PrevIndex(index: int): (r: int)
    ensures index >= 0 ==> r >= 0
    ensures r == index <==> index <= 0
    ensures r == index || r == index - 1
  {
    if index > 0 then index - 1 else index
  }

  /** `handleNextPage`: one page on, never past the last of `count` pages. */
  function NextIndex(index: int, count: nat): (r: int)
    ensures index <= count - 1 ==> r <= count - 1
    ensures r == index <==> index >= count - 1
    ensures r == index || r == index + 1
  {
    if index < count - 1 then index + 1 else index
  }

  /** The sections handed to the export and the preview: those of the book's pages. */
  function PageSections(pages: seq<Chapter>, sections: seq<Section>): (r: seq<Section>)
    ensures forall s :: s in r <==> s in sections && s.chapterId in Store.ChapterIds(pages)
  {
    var r := Filter(sections, (s: Section) => s.chapterId in Store.ChapterIds(pages));
    assert forall s :: s in r <==> s in sections && s.chapterId in Store.ChapterIds(pages) by {
      forall s ensures s in r <==> s in sections && s.chapterId in Store.ChapterIds(pages) {
        FilterMember(sections, (s: Section) => s.chapterId in Store.ChapterIds(pages), s);
      }
    }
    r
  }

  /** The page index `handleAddPage` selects: the number of pages before the addition. */
  function AddedPageIndex(pages: seq<Chapter>): nat {
    |pages|
  }

  /** The chapter `handleAddPage` creates: "Page n+1" at order n, for `n` pages. */
  function NewPageDraft(bookId: Id, pages: seq<Chapter>): (d: Store.ChapterDraft)
    ensures d.bookId == bookId && d.order == |pages| && d.pitch == None
    ensures d.title == "Page " + NatToString(|pages| + 1)
  {
    Store.ChapterDraft(bookId, "Page " + NatToString(|pages| + 1), |pages|, None)
  }

  class PageEditor {
    const bookId: Id
    var pages: seq<Chapter>
    var currentPageIndex: int
    var zoom: int

    ghost predicate Valid()
      reads this
    {
      MinZoom <= zoom <= MaxZoom && currentPageIndex >= 0
    }

    constructor (bookId: Id)
      ensures Valid()
      ensures this.bookId == bookId && pages == [] && currentPageIndex == 0 && zoom == InitialZoom
    {
      this.bookId := bookId;
      pages, currentPageIndex, zoom := [], 0, InitialZoom;
    }

    /** The effect that runs when the store's chapters change: the book's chapters,
        sorted by order. */
    method Refresh(chapters: seq<Chapter>)
      requires Valid()
      modifies this
      ensures Valid()
      ensures pages == Store.ChaptersOf(chapters, bookId)
      ensures currentPageIndex == old(currentPageIndex) && zoom == old(zoom)
    {
      pages := Store.ChaptersOf(chapters, bookId);
    }

    method PrevPage()
      requires Valid()
      modifies this
      ensures Valid()
      ensures currentPageIndex == PrevIndex(old(currentPageIndex))
      ensures pages == old(pages) && zoom == old(zoom)
    {
      if currentPageIndex > 0 {
        currentPageIndex := currentPageIndex - 1;
      }
    }

    method NextPage()
      requires Valid()
      modifies this
      ensures Valid()
      ensures currentPageIndex == NextIndex(old(currentPageIndex), |pages|)
      ensures pages == old(pages) && zoom == old(zoom)
    {
      if currentPageIndex < |pages| - 1 {
        currentPageIndex := currentPageIndex + 1;
      }
    }

    method ZoomIn()
      requires Valid()
      modifies this
      ensures Valid()
      ensures zoom == ZoomedIn(old(zoom))
      ensures pages == old(pages) && currentPageIndex == old(currentPageIndex)
    {
      if zoom < MaxZoom {
        zoom := if zoom + ZoomStep < MaxZoom then zoom + ZoomStep else MaxZoom;
      }
    }

    method ZoomOut()
      requires Valid()
      modifies this
      ensures Valid()
      ensures zoom == ZoomedOut(old(zoom))
      ensures pages == old(pages) && currentPageIndex == old(currentPageIndex)
    {
      if zoom > MinZoom {
        zoom := if zoom - ZoomStep > MinZoom then zoom - ZoomStep else MinZoom;
      }
    }

    /** `handleAddPage`: creates the next page in the store under the fresh id `id` and
        selects the index it would have at the end of the list. */
    method AddPage(store: Store.ChaptersStore, id: Id) returns (chapter: Chapter)
      requires Valid() && id !in Store.ChapterIds(store.chapters)
      modifies this, store
      ensures Valid()
      ensures chapter == Store.ChapterFromDraft(NewPageDraft(bookId, old(pages)), id)
      ensures store.chapters == old(store.chapters) + [chapter]
      ensures currentPageIndex == AddedPageIndex(old(pages))
      ensures pages == old(pages) && zoom == old(zoom)
    {
      chapter := store.CreateChapter(NewPageDraft(bookId, pages), id);
      currentPageIndex := |pages|;
    }
  }

  /** The book's pages with one more chapter of the book: the sorted list with that chapter
      inserted after every page whose order does not exceed its own. */
  lemma PagesAfterAdd(chapters: seq<Chapter>, bookId: Id, c: Chapter)
    requires c.bookId == bookId
    ensures Store.ChaptersOf(chapters + [c], bookId) == Insert(Store.ChaptersOf(chapters, bookId), c, ChapterOrder)
  {
    var keep := (x: Chapter) => x.bookId == bookId;
    FilterAppend(chapters, [c], keep);
    assert Filter([c], keep) == [c] by {
      assert [c][1..] == [];
    }
    var mine := Filter(chapters, keep);
    assert (mine + [c])[..|mine|] == mine;
  }

  /** When every page's order is at most the page count, as when pages are numbered from 0
      without gaps, the added page is the one selected once the list is refreshed. */
  lemma AddedPageSelected(chapters: seq<Chapter>, bookId: Id, c: Chapter)
    requires c.bookId == bookId && c.order == |Store.ChaptersOf(chapters, bookId)|
    requires forall p :: p in Store.ChaptersOf(chapters, bookId) ==> p.order <= c.order
    ensures var after := Store.ChaptersOf(chapters + [c], bookId);
      AddedPageIndex(Store.ChaptersOf(chapters, bookId)) < |after|
      && after[AddedPageIndex(Store.ChaptersOf(chapters, bookId))] == c
  {
    var pages := Store.ChaptersOf(chapters, bookId);
    PagesAfterAdd(chapters, bookId, c);
    InsertAfterAll(pages, c);
    assert (pages + [c])[|pages|] == c;
  }

  /** A page ordered after every existing page is appended. */
  lemma InsertAfterAll(pages: seq<Chapter>, c: Chapter)
    requires forall p :: p in pages ==> p.order <= c.order
    ensures Insert(pages, c, ChapterOrder) == pages + [c]
  {
    if pages != [] {
      assert pages[|pages| - 1] in pages;
    }
  }

  /** Two pages of one book, already in order, are the book's page list. */
  lemma TwoPages(a: Chapter, z: Chapter, bookId: Id)
    requires a.bookId == bookId && z.bookId == bookId && a.order <= z.order
    ensures Store.ChaptersOf([a, z], bookId) == [a, z]
  {
    var keep := (x: Chapter) => x.bookId == bookId;
    FilterAll([a, z], keep);
    assert [a, z][..1] == [a];
    assert SortBy([a], ChapterOrder) == [a];
  }

  /** A page whose order falls strictly between those of two existing pages lands between
      them, so the index `AddedPageIndex` selects, 2, shows the later page. */
  lemma AddedPageMissedAt(a: Chapter, z: Chapter, c: Chapter, bookId: Id)
    requires a.bookId == bookId && z.bookId == bookId && c.bookId == bookId
    requires a.order <= c.order < z.order
    ensures var after := Store.ChaptersOf([a, z] + [c], bookId);
      AddedPageIndex(Store.ChaptersOf([a, z], bookId)) == 2 && |after| == 3
      && after[2] == z && after[1] == c
  {
    TwoPages(a, z, bookId);
    PagesAfterAdd([a, z], bookId, c);
    InsertBetween(a, z, c);
  }

  /** The insertion step on its own: `c` goes between `a` and `z`. */
  lemma InsertBetween(a: Chapter, z: Chapter, c: Chapter)
    requires a.order <= c.order < z.order
    ensures Insert([a, z], c, ChapterOrder) == [a, c, z]
  {
    var p := [a, z];
    assert p[|p| - 1] == z && p[..|p| - 1] == [a];
    assert ChapterOrder(z) > ChapterOrder(c);
    assert Insert(p, c, ChapterOrder) == Insert([a], c, ChapterOrder) + [z];
    assert Insert([a], c, ChapterOrder) == [a] + [c];
  }

  /** With a gap in the page orders, the selected index shows another page: pages at orders
      0 and 5 and a new page at order 2 put the new page second, yet the third is
      selected. */
  lemma AddedPageMissed()
    ensures var a := Chapter("a", "b", "A", 0, None);
      var z := Chapter("z", "b", "Z", 5, None);
      var c := Chapter("c", "b", "Page 3", 2, None);
      var after := Store.ChaptersOf([a, z] + [c], "b");
      |after| == 3 && after[AddedPageIndex(Store.ChaptersOf([a, z], "b"))] == z && after[1] == c
  {
    AddedPageMissedAt(Chapter("a", "b", "A", 0, None), Chapter("z", "b", "Z", 5, None),
      Chapter("c", "b", "Page 3", 2, None), "b");
  }

  /** The first position whose page order exceeds `order`: where a page of that order lands
      in the sorted list. */
  function FirstAbove(pages: seq<Chapter>, order: int): (r: nat)
    ensures r <= |pages|
    ensures forall k :: 0 <= k < r ==> pages[k].order <= order
    ensures r < |pages| ==> pages[r].order > order
  {
    if pages == [] || pages[0].order > order then 0 else 1 + FirstAbove(pages[1..], order)
  }

  /** In a sorted page list, `FirstAbove` is the position the inserted page takes. */
  lemma InsertAtFirstAbove(pages: seq<Chapter>, c: Chapter)
    requires SortedBy(pages, ChapterOrder)
    ensures FirstAbove(pages, c.order) < |Insert(pages, c, ChapterOrder)|
    ensures Insert(pages, c, ChapterOrder)[FirstAbove(pages, c.order)] == c
  {
    var j := FirstAbove(pages, c.order);
    forall k | j <= k < |pages| ensures ChapterOrder(pages[k]) > ChapterOrder(c) {
      assert ChapterOrder(pages[j]) <= ChapterOrder(pages[k]);
    }
    InsertAt(pages, c, ChapterOrder, j);
    assert (pages[..j] + [c] + pages[j..])[j] == c;
  }

  /** Selecting `FirstAbove` instead of the page count always selects the added page. */
  lemma FirstAboveSelectsAdded(chapters: seq<Chapter>, bookId: Id, c: Chapter)
    requires c.bookId == bookId
    ensures var pages := Store.ChaptersOf(chapters, bookId);
      var after := Store.ChaptersOf(chapters + [c], bookId);
      FirstAbove(pages, c.order) < |after| && after[FirstAbove(pages, c.order)] == c
  {
    PagesAfterAdd(chapters, bookId, c);
    InsertAtFirstAbove(Store.ChaptersOf(chapters, bookId), c);
  }
}
