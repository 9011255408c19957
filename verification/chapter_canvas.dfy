/** The section list of a chapter (`ChapterCanvas`) and the editor of one section
    (`SectionEditor`): a heading is edited in a draft that is committed on Enter or blur and
    dropped on Escape; sections are added at the end of the chapter. */
module ChapterCanvas {
  import opened Wrappers
  import opened Seqs
  import opened Sorting
  import opened Text
  import opened Types
  import Store

  /** The heading a commit stores: the trimmed draft, or no heading when that is empty. */
  function CommittedHeading(draft: string): (h: Option<string>)
    ensures h == None <==> Blank(draft)
    ensures h.Some? ==> h.value == Trim(draft) && h.value != []
    ensures h.GetOr("") == Trim(draft)
  {
    TrimEmptyIffBlank(draft);
    if Trim(draft) == [] then None else Some(Trim(draft))
  }

  /** The update `handleHeadingUpdate` sends: only the heading, and only when the trimmed
      draft differs from the shown heading (a missing heading shows as ""). */
  function HeadingCommit(draft: string, heading: Option<string>): (u: Option<Store.SectionPatch>)
    ensures u.Some? <==> Trim(draft) != heading.GetOr("")
    ensures u.Some? ==> u.value == HeadingOnly(CommittedHeading(draft))
  {
    if Trim(draft) != heading.GetOr("") then Some(HeadingOnly(CommittedHeading(draft))) else None
  }

  /** A patch that sets the heading and nothing else. */
  function HeadingOnly(h: Option<string>): (p: Store.SectionPatch)
    ensures p.heading == Some(h)
    ensures p.chapterId == None && p.bodyMd == None && p.order == None && p.issues == None
  {
    Store.SectionPatch(None, Some(h), None, None, None)
  }

  /** `handleContentUpdate`: the new body and nothing else. */
  function BodyOnly(content: string): (p: Store.SectionPatch)
    ensures p.bodyMd == Some(content)
    ensures p.chapterId == None && p.heading == None && p.order == None && p.issues == None
  {
    Store.SectionPatch(None, None, Some(content), None, None)
  }

  /** A committed heading is stored as the trimmed draft, leaves every other field of the
      section alone, and committing the same draft again sends nothing. */
  lemma CommitSettles(s: Section, draft: string)
    requires HeadingCommit(draft, s.heading).Some?
    ensures var t := Store.PatchSection(s, HeadingCommit(draft, s.heading).value);
      t == s.(heading := CommittedHeading(draft)) && HeadingCommit(draft, t.heading) == None
  {
  }

  /** A body edit changes the body and nothing else. */
  lemma BodyEditOnlyBody(s: Section, content: string)
    ensures Store.PatchSection(s, BodyOnly(content)) == s.(bodyMd := content)
  {
  }

  /** The heading editor of one section. */
  class SectionEditor {
    const section: Section
    var isEditing: bool
    var tempHeading: string

    constructor (section: Section)
      ensures this.section == section && !isEditing && tempHeading == section.heading.GetOr("")
    {
      this.section := section;
      isEditing, tempHeading := false, section.heading.GetOr("");
    }

    /** A click on the heading opens the draft. */
    method StartEditing()
      modifies this
      ensures isEditing && tempHeading == old(tempHeading)
    {
      isEditing := true;
    }

    /** Typing replaces the draft. */
    method Type(text: string)
      modifies this
      ensures tempHeading == text && isEditing == old(isEditing)
    {
      tempHeading := text;
    }

    /** Enter or blur: the update to send, if any; edit mode ends either way. */
    method CommitHeading() returns (update: Option<Store.SectionPatch>)
      modifies this
      ensures update == HeadingCommit(old(tempHeading), section.heading)
      ensures !isEditing && tempHeading == old(tempHeading)
    {
      if Trim(tempHeading) != section.heading.GetOr("") {
        update := Some(HeadingOnly(CommittedHeading(tempHeading)));
      } else {
        update := None;
      }
      isEditing := false;
    }

    /** Escape: the draft goes back to the stored heading and edit mode ends, with no
        update. */
    method Cancel()
      modifies this
      ensures !isEditing && tempHeading == section.heading.GetOr("")
    {
      tempHeading := section.heading.GetOr("");
      isEditing := false;
    }
  }

  /** `handleAddSection`: the new section of the chapter, at the end (order = the count of
      the chapter's sections), with an empty heading and body. */
  function NewSectionDraft(sections: seq<Section>, chapterId: Id): (d: Store.SectionDraft)
    ensures d.chapterId == chapterId && d.heading == Some("") && d.bodyMd == ""
    ensures d.order == |Store.SectionsOf(sections, chapterId)| && d.issues == None
  {
    Store.SectionDraft(chapterId, Some(""), "", |Store.SectionsOf(sections, chapterId)|, None)
  }

  method AddSection(store: Store.SectionsStore, chapterId: Id, id: Id) returns (section: Section)
    requires id !in Store.SectionIds(store.sections)
    modifies store
    ensures section == Store.SectionFromDraft(NewSectionDraft(old(store.sections), chapterId), id)
    ensures store.sections == old(store.sections) + [section]
  {
    section := store.CreateSection(NewSectionDraft(store.sections, chapterId), id);
  }

  /** The sections of a chapter with one more of its sections: the sorted list with that
      section inserted after every section whose order does not exceed its own. */
  lemma SectionsAfterAdd(sections: seq<Section>, chapterId: Id, s: Section)
    requires s.chapterId == chapterId
    ensures Store.SectionsOf(sections + [s], chapterId)
      == Insert(Store.SectionsOf(sections, chapterId), s, SectionOrder)
  {
    var keep := (x: Section) => x.chapterId == chapterId;
    FilterAppend(sections, [s], keep);
    assert Filter([s], keep) == [s] by {
      assert [s][1..] == [];
    }
    var mine := Filter(sections, keep);
    assert (mine + [s])[..|mine|] == mine;
  }

  /** When the chapter's sections are ordered at most their count (as when numbered from
      0), the added section is shown last. */
  lemma AddedSectionLast(sections: seq<Section>, chapterId: Id, id: Id)
    requires forall t :: t in Store.SectionsOf(sections, chapterId) ==> t.order <= |Store.SectionsOf(sections, chapterId)|
    ensures var s := Store.SectionFromDraft(NewSectionDraft(sections, chapterId), id);
      Store.SectionsOf(sections + [s], chapterId) == Store.SectionsOf(sections, chapterId) + [s]
  {
    var mine := Store.SectionsOf(sections, chapterId);
    var s := Store.SectionFromDraft(NewSectionDraft(sections, chapterId), id);
    SectionsAfterAdd(sections, chapterId, s);
    if mine != [] {
      assert mine[|mine| - 1] in mine;
    }
  }
}
