/** The chapter canvas (components/CanvaChapterCanvas.tsx): it loads a chapter's sections
    into typed blocks and writes the whole block list back into the sections store after
    every edit. `JSON.parse` and `JSON.stringify` are an abstract codec passed in. */
module CanvaChapterCanvas {
  import opened Wrappers
  import opened Seqs
  import opened Sorting
  import opened Types
  import opened BlockTypes
  import opened Store

  // ---------------------------------------------------------------------------------------
  // The JSON codec.

  /** What a non-text block is saved as: `{type, x, y, width, height, content}`. */
  datatype Payload = Payload(btype: BlockType, x: int, y: int, width: int, height: int, content: Content)

  /** A body that parses as a JSON object, seen through the keys the loader reads. */
  datatype Parsed = Parsed(
    btype: Option<BlockType>,
    content: Option<Content>,
    x: Option<int>,
    y: Option<int>,
    width: Option<int>,
    height: Option<int>)

  /** `decode` gives `None` when the body does not parse or is not an object. */
  datatype Codec = Codec(encode: Payload -> string, decode: string -> Option<Parsed>)

  function ParsedOf(p: Payload): Parsed {
    Parsed(Some(p.btype), Some(p.content), Some(p.x), Some(p.y), Some(p.width), Some(p.height))
  }

  function EmptyObject(): Parsed {
    Parsed(None, None, None, None, None, None)
  }

  /** A non-empty text whose first character neither opens an object nor is JSON
      whitespace cannot parse as an object. */
  predicate NotObjectText(s: string) {
    |s| > 0 && s[0] !in {'{', ' ', '\t', '\n', '\r'}
  }

  /** `JSON.stringify` of an object starts with an opening brace. */
  predicate StartsObject(s: string) {
    |s| > 0 && s[0] == '{'
  }

  /** The laws of `JSON.parse` and `JSON.stringify` the model relies on. */
  ghost predicate Lawful(codec: Codec) {
    (forall p :: codec.decode(codec.encode(p)) == Some(ParsedOf(p)) && StartsObject(codec.encode(p)))
    && codec.decode("{}") == Some(EmptyObject())
    && (forall s :: NotObjectText(s) ==> codec.decode(s) == None)
  }

  /** The parsed object has a truthy `type` and a truthy `content`. */
  predicate IsBlockData(p: Option<Parsed>) {
    p.Some? && p.value.btype.Some? && p.value.content.Some?
  }

  /** JavaScript's `n || d` on a parsed number: a missing or zero value gives `d`. */
  function Or(o: Option<int>, d: int): int {
    if o.Some? && o.value != 0 then o.value else d
  }

  // ---------------------------------------------------------------------------------------
  // Loading.

  const PlaceholderText: string := "Start writing your chapter content here..."
  const EmptySectionText: string := "Empty section..."

  /** A text block with the default geometry and style. */
  function TextBlock(id: Id, index: int, text: string): (b: Block)
    ensures WellTyped(b) && b.btype == Text && b.id == id && b.order == index
  {
    Block(id, Text, index, 0, 0, 100, 60, TextContent(text, DefaultTextStyle()))
  }

  /** The block that a section with id `id` and body `body` at position `index` loads as:
      block data keeps its parsed type and content, with each missing or zero coordinate
      and size defaulted; anything else is a text block holding the body. */
  function BodyToBlock(codec: Codec, id: Id, body: string, index: int): (b: Block)
    ensures b.id == id && b.order == index
    ensures IsBlockData(codec.decode(if body == [] then "{}" else body)) ==>
      var p := codec.decode(if body == [] then "{}" else body).value;
      b == Block(id, p.btype.value, index, Or(p.x, 0), Or(p.y, 0), Or(p.width, 100), Or(p.height, 60), p.content.value)
    ensures !IsBlockData(codec.decode(if body == [] then "{}" else body)) ==>
      b == TextBlock(id, index, if body == [] then EmptySectionText else body)
  {
    var parsed := codec.decode(if body == [] then "{}" else body);
    if IsBlockData(parsed) then
      var p := parsed.value;
      Block(id, p.btype.value, index, Or(p.x, 0), Or(p.y, 0), Or(p.width, 100), Or(p.height, 60),
            p.content.value)
    else
      TextBlock(id, index, if body == [] then EmptySectionText else body)
  }

  /** Block data stored without any geometry, as a body written by hand or by an older
      save, loads at the origin with the default 100 by 60 size. */
  lemma NoGeometryDefaults(codec: Codec, id: Id, body: string, index: int, t: BlockType, c: Content)
    requires codec.decode(if body == [] then "{}" else body) == Some(Parsed(Some(t), Some(c), None, None, None, None))
    ensures BodyToBlock(codec, id, body, index) == Block(id, t, index, 0, 0, 100, 60, c)
  {
  }

  /** Non-zero coordinates and sizes in block data are kept as stored. */
  lemma GeometryKept(codec: Codec, id: Id, body: string, index: int)
    requires IsBlockData(codec.decode(if body == [] then "{}" else body))
    requires var p := codec.decode(if body == [] then "{}" else body).value;
      p.x.Some? && p.y.Some? && p.width.Some? && p.height.Some?
      && p.x.value != 0 && p.y.value != 0 && p.width.value != 0 && p.height.value != 0
    ensures var p := codec.decode(if body == [] then "{}" else body).value;
      var b := BodyToBlock(codec, id, body, index);
      b.x == p.x.value && b.y == p.y.value && b.width == p.width.value && b.height == p.height.value
  {
  }

  function SectionToBlock(codec: Codec, s: Section, index: int): Block {
    BodyToBlock(codec, s.id, s.bodyMd, index)
  }

  /** The chapter's sections, already sorted, as blocks: block `i` is section `i` and has
      order `i`, whatever order the section stored. */
  function LoadBlocks(codec: Codec, sections: seq<Section>): (blocks: seq<Block>)
    ensures |blocks| == |sections|
    ensures forall i :: 0 <= i < |blocks| ==>
      blocks[i].order == i && blocks[i].id == sections[i].id
  {
    seq(|sections|, i requires 0 <= i < |sections| => SectionToBlock(codec, sections[i], i))
  }

  function PlaceholderBlock(id: Id): Block {
    TextBlock(id, 0, PlaceholderText)
  }

  function PlaceholderDraft(chapterId: Id): SectionDraft {
    SectionDraft(chapterId, Some(""), PlaceholderText, 0, None)
  }

  /** The load effect: an empty chapter gets one placeholder block and one placeholder
      section; otherwise the chapter's sections are converted. */
  method LoadChapter(store: SectionsStore, codec: Codec, chapterId: Id, blockId: Id, sectionId: Id)
    returns (blocks: seq<Block>)
    requires sectionId !in SectionIds(store.sections)
    modifies store
    ensures SectionsOf(old(store.sections), chapterId) == [] ==>
      blocks == [PlaceholderBlock(blockId)]
      && store.sections == old(store.sections) + [SectionFromDraft(PlaceholderDraft(chapterId), sectionId)]
    ensures SectionsOf(old(store.sections), chapterId) != [] ==>
      blocks == LoadBlocks(codec, SectionsOf(old(store.sections), chapterId))
      && store.sections == old(store.sections)
  {
    var chapterSections := store.GetSectionsByChapter(chapterId);
    if chapterSections == [] {
      blocks := [PlaceholderBlock(blockId)];
      var created := store.CreateSection(PlaceholderDraft(chapterId), sectionId);
    } else {
      blocks := LoadBlocks(codec, chapterSections);
    }
  }

  /** After the placeholder is written, the chapter holds exactly that section. */
  lemma PlaceholderOnlySection(sections: seq<Section>, chapterId: Id, sectionId: Id)
    requires SectionsOf(sections, chapterId) == []
    ensures var placed := SectionFromDraft(PlaceholderDraft(chapterId), sectionId);
      SectionsOf(sections + [placed], chapterId) == [placed]
  {
    var placed := SectionFromDraft(PlaceholderDraft(chapterId), sectionId);
    var keep := (s: Section) => s.chapterId == chapterId;
    FilterAppend(sections, [placed], keep);
    FilterNone(sections, keep) by {
      forall s | s in sections ensures !keep(s) {
        assert s !in SectionsOf(sections, chapterId);
      }
    }
    assert Filter([placed], keep) == [placed] by {
      assert [placed][1..] == [];
    }
  }

  /** The placeholder section loads back as the placeholder block, under the section's
      id. */
  lemma PlaceholderReload(codec: Codec, chapterId: Id, sectionId: Id)
    requires Lawful(codec)
    ensures LoadBlocks(codec, [SectionFromDraft(PlaceholderDraft(chapterId), sectionId)])
            == [PlaceholderBlock(sectionId)]
  {
    assert NotObjectText(PlaceholderText);
    assert codec.decode(PlaceholderText) == None;
  }

  // ---------------------------------------------------------------------------------------
  // Saving.

  /** `sections.find(s => s.id === id)`: the first section with that id. */
  function FindSection(sections: seq<Section>, id: Id): (r: Option<Section>)
    ensures r.Some? <==> id in SectionIds(sections)
    ensures r.Some? ==> r.value in sections && r.value.id == id
  {
    if sections == [] then None
    else if sections[0].id == id then Some(sections[0])
    else
      var r := FindSection(sections[1..], id);
      assert id in SectionIds(sections[1..]) <==> id in SectionIds(sections) by {
        assert sections == [sections[0]] + sections[1..];
      }
      r
  }

  /** The body a block is saved as: a text block's raw text, any other block's JSON. */
  function BodyOf(codec: Codec, b: Block): string
    requires WellTyped(b)
  {
    if b.btype == Text then b.content.text
    else codec.encode(Payload(b.btype, b.x, b.y, b.width, b.height, b.content))
  }

  /** The heading a block is saved with: a heading block's text, `undefined` otherwise. */
  function HeadingOf(b: Block): Option<string>
    requires WellTyped(b)
  {
    if b.btype == Heading then Some(b.content.text) else None
  }

  /** The update sent for block `b` at position `index` when its section exists. */
  function SavePatch(codec: Codec, b: Block, index: int): SectionPatch
    requires WellTyped(b)
  {
    SectionPatch(None, Some(HeadingOf(b)), Some(BodyOf(codec, b)), Some(index), None)
  }

  /** The section created for block `b` at position `index` when none exists. */
  function SaveDraft(codec: Codec, chapterId: Id, b: Block, index: int): SectionDraft
    requires WellTyped(b)
  {
    SectionDraft(chapterId, HeadingOf(b), BodyOf(codec, b), index, None)
  }

  predicate AllWellTyped(blocks: seq<Block>) {
    forall i :: 0 <= i < |blocks| ==> WellTyped(blocks[i])
  }

  function BlockIds(blocks: seq<Block>): (r: seq<Id>)
    ensures |r| == |blocks| && forall i :: 0 <= i < |blocks| ==> r[i] == blocks[i].id
  {
    seq(|blocks|, i requires 0 <= i < |blocks| => blocks[i].id)
  }

  function Ids(sections: seq<Section>): (r: seq<Id>)
    ensures |r| == |sections| && forall i :: 0 <= i < |sections| ==> r[i] == sections[i].id
  {
    seq(|sections|, i requires 0 <= i < |sections| => sections[i].id)
  }

  /** The section created for block `i`, under the newIds id drawn for it. */
  function NewSection(codec: Codec, chapterId: Id, blocks: seq<Block>, newIds: seq<Id>, i: nat): (s: Section)
    requires AllWellTyped(blocks) && |newIds| == |blocks| && i < |blocks|
    ensures s.id == newIds[i] && s.chapterId == chapterId && s.order == i
  {
    SectionFromDraft(SaveDraft(codec, chapterId, blocks[i], i), newIds[i])
  }

  /** Section `s` of the snapshot after the first `k` blocks have been saved. */
  function Patched(codec: Codec, s: Section, blocks: seq<Block>, k: nat): (r: Section)
    requires AllWellTyped(blocks) && k <= |blocks|
    ensures r.id == s.id && r.chapterId == s.chapterId
  {
    if k == 0 then s
    else
      var p := Patched(codec, s, blocks, k - 1);
      if blocks[k - 1].id == s.id then PatchSection(p, SavePatch(codec, blocks[k - 1], k - 1)) else p
  }

  /** The sections created while saving the first `k` blocks, in block order. */
  function Created(codec: Codec, snapshot: seq<Section>, chapterId: Id, blocks: seq<Block>, newIds: seq<Id>, k: nat)
    : seq<Section>
    requires AllWellTyped(blocks) && |newIds| == |blocks| && k <= |blocks|
  {
    if k == 0 then []
    else
      Created(codec, snapshot, chapterId, blocks, newIds, k - 1)
      + (if FindSection(snapshot, blocks[k - 1].id).Some? then []
         else [NewSection(codec, chapterId, blocks, newIds, k - 1)])
  }

  /** The store after the first loop has handled the first `k` blocks. */
  function Upserted(codec: Codec, snapshot: seq<Section>, chapterId: Id, blocks: seq<Block>, newIds: seq<Id>, k: nat)
    : seq<Section>
    requires AllWellTyped(blocks) && |newIds| == |blocks| && k <= |blocks|
  {
    seq(|snapshot|, j requires 0 <= j < |snapshot| => Patched(codec, snapshot[j], blocks, k))
    + Created(codec, snapshot, chapterId, blocks, newIds, k)
  }

  /** The store after the second loop has deleted the ids of `chapterIds` that no block
      carries. */
  function Pruned(sections: seq<Section>, chapterIds: seq<Id>, blockIds: seq<Id>): seq<Section> {
    Filter(sections, (s: Section) => s.id !in chapterIds || s.id in blockIds)
  }

  /** The store after `handleBlocksChange(blocks)`. */
  function SavedSections(codec: Codec, snapshot: seq<Section>, chapterId: Id, blocks: seq<Block>, newIds: seq<Id>)
    : seq<Section>
    requires AllWellTyped(blocks) && |newIds| == |blocks|
  {
    Pruned(Upserted(codec, snapshot, chapterId, blocks, newIds, |blocks|),
           Ids(SectionsOf(snapshot, chapterId)), BlockIds(blocks))
  }

  /** Fresh ids: one per block, pairwise different, none already a section id. */
  predicate NewIdsFresh(newIds: seq<Id>, blocks: seq<Block>, sections: seq<Section>) {
    |newIds| == |blocks| && Distinct(newIds) && forall i :: 0 <= i < |newIds| ==> newIds[i] !in SectionIds(sections)
  }

  lemma {:induction false} CreatedMember(codec: Codec, snapshot: seq<Section>, chapterId: Id, blocks: seq<Block>,
                                         newIds: seq<Id>, k: nat, x: Section)
    requires AllWellTyped(blocks) && |newIds| == |blocks| && k <= |blocks|
    ensures x in Created(codec, snapshot, chapterId, blocks, newIds, k) <==>
      exists i :: 0 <= i < k && blocks[i].id !in SectionIds(snapshot)
                  && x == NewSection(codec, chapterId, blocks, newIds, i)
  {
    if k > 0 {
      CreatedMember(codec, snapshot, chapterId, blocks, newIds, k - 1, x);
    }
  }

  lemma {:induction false} CreatedDistinct(codec: Codec, snapshot: seq<Section>, chapterId: Id, blocks: seq<Block>,
                                           newIds: seq<Id>, k: nat)
    requires AllWellTyped(blocks) && NewIdsFresh(newIds, blocks, snapshot) && k <= |blocks|
    ensures Distinct(Created(codec, snapshot, chapterId, blocks, newIds, k))
    ensures forall x :: x in Created(codec, snapshot, chapterId, blocks, newIds, k) ==>
      x.id !in SectionIds(snapshot) && x.chapterId == chapterId
  {
    if k > 0 {
      var prev := Created(codec, snapshot, chapterId, blocks, newIds, k - 1);
      CreatedDistinct(codec, snapshot, chapterId, blocks, newIds, k - 1);
      if FindSection(snapshot, blocks[k - 1].id).None? {
        var n := NewSection(codec, chapterId, blocks, newIds, k - 1);
        forall x | x in prev ensures x != n {
          CreatedMember(codec, snapshot, chapterId, blocks, newIds, k - 1, x);
          var i :| 0 <= i < k - 1 && blocks[i].id !in SectionIds(snapshot)
                   && x == NewSection(codec, chapterId, blocks, newIds, i);
          assert newIds[i] != newIds[k - 1];
        }
        DistinctAppend(prev, [n]);
      } else {
        assert Created(codec, snapshot, chapterId, blocks, newIds, k) == prev;
      }
    }
  }

  /** Updating an existing section takes the first loop from block `k` to block `k + 1`. */
  lemma UpsertUpdateStep(codec: Codec, snapshot: seq<Section>, chapterId: Id, blocks: seq<Block>, newIds: seq<Id>, k: nat)
    requires AllWellTyped(blocks) && NewIdsFresh(newIds, blocks, snapshot) && k < |blocks|
    requires FindSection(snapshot, blocks[k].id).Some?
    ensures UpdateSections(Upserted(codec, snapshot, chapterId, blocks, newIds, k), blocks[k].id,
                           SavePatch(codec, blocks[k], k))
            == Upserted(codec, snapshot, chapterId, blocks, newIds, k + 1)
  {
    var before := Upserted(codec, snapshot, chapterId, blocks, newIds, k);
    var after := Upserted(codec, snapshot, chapterId, blocks, newIds, k + 1);
    var created := Created(codec, snapshot, chapterId, blocks, newIds, k);
    assert Created(codec, snapshot, chapterId, blocks, newIds, k + 1) == created;
    CreatedNotFound(codec, snapshot, chapterId, blocks, newIds, k);
    var updated := UpdateSections(before, blocks[k].id, SavePatch(codec, blocks[k], k));
    forall j | 0 <= j < |snapshot| ensures updated[j] == after[j] {
    }
    forall j | |snapshot| <= j < |after| ensures updated[j] == after[j] {
      assert before[j] == created[j - |snapshot|] == after[j];
      assert before[j] in created;
    }
  }

  /** The sections created so far never carry the id of a block that was found. */
  lemma CreatedNotFound(codec: Codec, snapshot: seq<Section>, chapterId: Id, blocks: seq<Block>, newIds: seq<Id>, k: nat)
    requires AllWellTyped(blocks) && NewIdsFresh(newIds, blocks, snapshot) && k < |blocks|
    requires FindSection(snapshot, blocks[k].id).Some?
    ensures forall x :: x in Created(codec, snapshot, chapterId, blocks, newIds, k) ==> x.id != blocks[k].id
  {
    CreatedDistinct(codec, snapshot, chapterId, blocks, newIds, k);
    var found := FindSection(snapshot, blocks[k].id).value;
    assert found in snapshot && found.id == blocks[k].id;
    assert blocks[k].id in SectionIds(snapshot);
  }

  /** Creating a section takes the first loop from block `k` to block `k + 1`, and the
      newIds id is not yet in the store. */
  lemma UpsertCreateStep(codec: Codec, snapshot: seq<Section>, chapterId: Id, blocks: seq<Block>, newIds: seq<Id>, k: nat)
    requires AllWellTyped(blocks) && NewIdsFresh(newIds, blocks, snapshot) && k < |blocks|
    requires FindSection(snapshot, blocks[k].id).None?
    ensures newIds[k] !in SectionIds(Upserted(codec, snapshot, chapterId, blocks, newIds, k))
    ensures Upserted(codec, snapshot, chapterId, blocks, newIds, k) + [NewSection(codec, chapterId, blocks, newIds, k)]
            == Upserted(codec, snapshot, chapterId, blocks, newIds, k + 1)
  {
    var before := Upserted(codec, snapshot, chapterId, blocks, newIds, k);
    var after := Upserted(codec, snapshot, chapterId, blocks, newIds, k + 1);
    var n := NewSection(codec, chapterId, blocks, newIds, k);
    forall j | 0 <= j < |after| ensures (before + [n])[j] == after[j] {
      if j < |snapshot| {
        assert snapshot[j] in snapshot;
      }
    }
    forall x | x in before ensures x.id != newIds[k] {
      var j :| 0 <= j < |before| && before[j] == x;
      if j < |snapshot| {
        assert snapshot[j] in snapshot;
      } else {
        var created := Created(codec, snapshot, chapterId, blocks, newIds, k);
        assert x in created;
        CreatedMember(codec, snapshot, chapterId, blocks, newIds, k, x);
        var i :| 0 <= i < k && blocks[i].id !in SectionIds(snapshot)
                 && x == NewSection(codec, chapterId, blocks, newIds, i);
        assert newIds[i] != newIds[k];
      }
    }
  }

  /** One step of the second loop. */
  lemma PruneStep(sections: seq<Section>, chapterIds: seq<Id>, blockIds: seq<Id>, k: nat)
    requires k < |chapterIds|
    ensures chapterIds[k] !in blockIds ==>
      RemoveSection(Pruned(sections, chapterIds[..k], blockIds), chapterIds[k])
      == Pruned(sections, chapterIds[..k + 1], blockIds)
    ensures chapterIds[k] in blockIds ==>
      Pruned(sections, chapterIds[..k], blockIds) == Pruned(sections, chapterIds[..k + 1], blockIds)
  {
    var id := chapterIds[k];
    assert chapterIds[..k + 1] == chapterIds[..k] + [id];
    if id !in blockIds {
      FilterFilter(sections, (s: Section) => s.id !in chapterIds[..k] || s.id in blockIds,
                   (s: Section) => s.id != id,
                   (s: Section) => s.id !in chapterIds[..k + 1] || s.id in blockIds);
    } else {
      FilterCongruent(sections, (s: Section) => s.id !in chapterIds[..k] || s.id in blockIds,
                      (s: Section) => s.id !in chapterIds[..k + 1] || s.id in blockIds);
    }
  }

  /** `handleBlocksChange`: the first loop updates the section of each block that has one
      (found in the store as it was before the save) and creates a section for each other
      block; the second loop deletes the chapter's sections that no block names. */
  method SaveBlocks(store: SectionsStore, codec: Codec, chapterId: Id, blocks: seq<Block>, newIds: seq<Id>)
    requires AllWellTyped(blocks) && NewIdsFresh(newIds, blocks, store.sections)
    modifies store
    ensures store.sections == SavedSections(codec, old(store.sections), chapterId, blocks, newIds)
  {
    var chapterSectionIds := Ids(store.GetSectionsByChapter(chapterId));
    UpsertBlocks(store, codec, chapterId, blocks, newIds);
    PruneSections(store, chapterSectionIds, BlockIds(blocks));
  }

  /** The first loop of `handleBlocksChange`. */
  method UpsertBlocks(store: SectionsStore, codec: Codec, chapterId: Id, blocks: seq<Block>, newIds: seq<Id>)
    requires AllWellTyped(blocks) && NewIdsFresh(newIds, blocks, store.sections)
    modifies store
    ensures store.sections == Upserted(codec, old(store.sections), chapterId, blocks, newIds, |blocks|)
  {
    var snapshot := store.sections;
    var i := 0;
    while i < |blocks|
      invariant 0 <= i <= |blocks|
      invariant store.sections == Upserted(codec, snapshot, chapterId, blocks, newIds, i)
    {
      UpsertBlock(store, codec, snapshot, chapterId, blocks, newIds, i);
      i := i + 1;
    }
  }

  /** One turn of the first loop: block `i` updates the section that had its id before the
      save, or else creates a section under the fresh id drawn for it. */
  method UpsertBlock(store: SectionsStore, codec: Codec, snapshot: seq<Section>, chapterId: Id,
                     blocks: seq<Block>, newIds: seq<Id>, i: nat)
    requires AllWellTyped(blocks) && NewIdsFresh(newIds, blocks, snapshot) && i < |blocks|
    requires store.sections == Upserted(codec, snapshot, chapterId, blocks, newIds, i)
    modifies store
    ensures store.sections == Upserted(codec, snapshot, chapterId, blocks, newIds, i + 1)
  {
    var block := blocks[i];
    var existing := FindSection(snapshot, block.id);
    if existing.Some? {
      UpsertUpdateStep(codec, snapshot, chapterId, blocks, newIds, i);
      store.UpdateSection(block.id, SavePatch(codec, block, i));
    } else {
      UpsertCreateStep(codec, snapshot, chapterId, blocks, newIds, i);
      var created := store.CreateSection(SaveDraft(codec, chapterId, block, i), newIds[i]);
      assert created == NewSection(codec, chapterId, blocks, newIds, i);
    }
  }

  /** The second loop of `handleBlocksChange`: every id of `chapterIds` that no block
      carries is deleted. */
  method PruneSections(store: SectionsStore, chapterIds: seq<Id>, blockIds: seq<Id>)
    modifies store
    ensures store.sections == Pruned(old(store.sections), chapterIds, blockIds)
  {
    var upserted := store.sections;
    assert Pruned(upserted, chapterIds[..0], blockIds) == upserted by {
      FilterAll(upserted, (s: Section) => s.id !in chapterIds[..0] || s.id in blockIds);
    }
    var k := 0;
    while k < |chapterIds|
      invariant 0 <= k <= |chapterIds|
      invariant store.sections == Pruned(upserted, chapterIds[..k], blockIds)
    {
      PruneStep(upserted, chapterIds, blockIds, k);
      if chapterIds[k] !in blockIds {
        store.DeleteSection(chapterIds[k]);
      }
      k := k + 1;
    }
    assert chapterIds[..k] == chapterIds;
  }

  // ---------------------------------------------------------------------------------------
  // What a reload after a save gives back.

  /** Block `b` reloaded from the section it was saved into, at position `index`, where the
      section has id `id`. */
  function Reloaded(codec: Codec, b: Block, id: Id, index: int): Block
    requires WellTyped(b)
  {
    BodyToBlock(codec, id, BodyOf(codec, b), index)
  }

  /** A non-text block comes back with its type, position, size and content, provided its
      width and height are not zero. */
  lemma NonTextRoundTrip(codec: Codec, b: Block, id: Id, index: int)
    requires Lawful(codec) && WellTyped(b) && b.btype != Text
    requires b.width != 0 && b.height != 0
    ensures Reloaded(codec, b, id, index) == b.(id := id, order := index)
  {
    var p := Payload(b.btype, b.x, b.y, b.width, b.height, b.content);
    assert codec.decode(codec.encode(p)) == Some(ParsedOf(p)) && StartsObject(codec.encode(p));
  }

  /** A zero width reloads as 100 and a zero height as 60 (`width || 100`); everything else
      of a non-text block survives. */
  lemma ZeroSizeReload(codec: Codec, b: Block, id: Id, index: int)
    requires Lawful(codec) && WellTyped(b) && b.btype != Text
    ensures var r := Reloaded(codec, b, id, index);
      r.btype == b.btype && r.content == b.content && r.x == b.x && r.y == b.y
      && r.width == (if b.width == 0 then 100 else b.width)
      && r.height == (if b.height == 0 then 60 else b.height)
  {
    var p := Payload(b.btype, b.x, b.y, b.width, b.height, b.content);
    assert codec.decode(codec.encode(p)) == Some(ParsedOf(p)) && StartsObject(codec.encode(p));
  }

  /** A text block keeps only its text: the style and the geometry come back as the
      defaults. */
  lemma TextReload(codec: Codec, b: Block, id: Id, index: int)
    requires WellTyped(b) && b.btype == Text
    requires b.content.text != [] && !IsBlockData(codec.decode(b.content.text))
    ensures Reloaded(codec, b, id, index) == TextBlock(id, index, b.content.text)
  {
  }

  /** Text that does not start like a JSON object reloads as itself. */
  lemma PlainTextReload(codec: Codec, b: Block, id: Id, index: int)
    requires Lawful(codec) && WellTyped(b) && b.btype == Text && NotObjectText(b.content.text)
    ensures Reloaded(codec, b, id, index) == TextBlock(id, index, b.content.text)
  {
    assert codec.decode(b.content.text) == None;
  }

  /** An emptied text block reloads as "Empty section...". */
  lemma EmptyTextReload(codec: Codec, b: Block, id: Id, index: int)
    requires Lawful(codec) && WellTyped(b) && b.btype == Text && b.content.text == []
    ensures Reloaded(codec, b, id, index) == TextBlock(id, index, EmptySectionText)
  {
    assert codec.decode("{}") == Some(EmptyObject());
  }

  /** A text block whose text is the JSON of some block payload reloads as that other
      block: its type and content are taken from the text. */
  lemma JsonTextMisread(codec: Codec, b: Block, p: Payload, id: Id, index: int)
    requires Lawful(codec) && WellTyped(b) && b.btype == Text && b.content.text == codec.encode(p)
    ensures var r := Reloaded(codec, b, id, index);
      r.btype == p.btype && r.content == p.content
  {
    assert codec.decode(codec.encode(p)) == Some(ParsedOf(p)) && StartsObject(codec.encode(p));
  }

  /** Blocks that survive a save and a reload unchanged apart from id and order: non-text
      blocks with a non-zero size, and text blocks with the default style and geometry whose
      text is neither empty nor parses as block data. */
  predicate Canonical(codec: Codec, b: Block) {
    WellTyped(b)
    && if b.btype == Text then
         b.x == 0 && b.y == 0 && b.width == 100 && b.height == 60
         && b.content.textStyle == DefaultTextStyle()
         && b.content.text != [] && !IsBlockData(codec.decode(b.content.text))
       else b.width != 0 && b.height != 0
  }

  lemma CanonicalRoundTrip(codec: Codec, b: Block, id: Id, index: int)
    requires Lawful(codec) && Canonical(codec, b)
    ensures Reloaded(codec, b, id, index) == b.(id := id, order := index)
  {
    if b.btype == Text {
      TextReload(codec, b, id, index);
    } else {
      NonTextRoundTrip(codec, b, id, index);
    }
  }

  // ---------------------------------------------------------------------------------------
  // The whole chapter after a save.

  /** No two sections share an id (the store only ever adds fresh ids). */
  predicate UniqueIds(sections: seq<Section>) {
    forall i, j :: 0 <= i < j < |sections| ==> sections[i].id != sections[j].id
  }

  /** Every block that names an existing section names a section of this chapter. */
  predicate BlocksOfChapter(snapshot: seq<Section>, chapterId: Id, blocks: seq<Block>) {
    forall i :: 0 <= i < |blocks| && blocks[i].id in SectionIds(snapshot) ==>
      blocks[i].id in Ids(SectionsOf(snapshot, chapterId))
  }

  /** The preconditions of the round trip. */
  predicate SaveSetting(snapshot: seq<Section>, chapterId: Id, blocks: seq<Block>, newIds: seq<Id>) {
    UniqueIds(snapshot) && AllWellTyped(blocks) && Distinct(BlockIds(blocks))
    && NewIdsFresh(newIds, blocks, snapshot) && BlocksOfChapter(snapshot, chapterId, blocks)
  }

  /** The id of the section block `i` is saved into. */
  function SavedId(snapshot: seq<Section>, blocks: seq<Block>, newIds: seq<Id>, i: nat): Id
    requires |newIds| == |blocks| && i < |blocks|
  {
    if FindSection(snapshot, blocks[i].id).Some? then blocks[i].id else newIds[i]
  }

  /** The section block `i` is saved into. */
  function Expected(codec: Codec, snapshot: seq<Section>, chapterId: Id, blocks: seq<Block>, newIds: seq<Id>, i: nat)
    : (s: Section)
    requires AllWellTyped(blocks) && |newIds| == |blocks| && i < |blocks|
    ensures s.id == SavedId(snapshot, blocks, newIds, i) && s.order == i
    ensures s.bodyMd == BodyOf(codec, blocks[i])
  {
    var found := FindSection(snapshot, blocks[i].id);
    if found.Some? then PatchSection(found.value, SavePatch(codec, blocks[i], i))
    else NewSection(codec, chapterId, blocks, newIds, i)
  }

  function ExpectedSections(codec: Codec, snapshot: seq<Section>, chapterId: Id, blocks: seq<Block>, newIds: seq<Id>)
    : seq<Section>
    requires AllWellTyped(blocks) && |newIds| == |blocks|
  {
    seq(|blocks|, i requires 0 <= i < |blocks| => Expected(codec, snapshot, chapterId, blocks, newIds, i))
  }

  lemma {:induction false} PatchedNone(codec: Codec, s: Section, blocks: seq<Block>, k: nat)
    requires AllWellTyped(blocks) && k <= |blocks|
    requires forall j :: 0 <= j < k ==> blocks[j].id != s.id
    ensures Patched(codec, s, blocks, k) == s
  {
    if k > 0 {
      PatchedNone(codec, s, blocks, k - 1);
    }
  }

  /** With distinct block ids, a section is patched by the one block that names it. */
  lemma {:induction false} PatchedOnce(codec: Codec, s: Section, blocks: seq<Block>, k: nat, j: nat)
    requires AllWellTyped(blocks) && Distinct(BlockIds(blocks)) && j < k <= |blocks| && blocks[j].id == s.id
    ensures Patched(codec, s, blocks, k) == PatchSection(s, SavePatch(codec, blocks[j], j))
  {
    var ids := BlockIds(blocks);
    if j == k - 1 {
      forall m | 0 <= m < k - 1 ensures blocks[m].id != s.id {
        assert ids[m] != ids[j];
      }
      PatchedNone(codec, s, blocks, k - 1);
    } else {
      assert ids[k - 1] != ids[j];
      PatchedOnce(codec, s, blocks, k - 1, j);
    }
  }

  lemma ChapterIdsInSnapshot(snapshot: seq<Section>, chapterId: Id, id: Id)
    ensures id in Ids(SectionsOf(snapshot, chapterId)) <==>
      exists s :: s in snapshot && s.chapterId == chapterId && s.id == id
  {
    var mine := SectionsOf(snapshot, chapterId);
    if id in Ids(mine) {
      var m :| 0 <= m < |mine| && Ids(mine)[m] == id;
      assert mine[m] in mine;
    }
    forall s | s in snapshot && s.chapterId == chapterId && s.id == id ensures id in Ids(mine) {
      var m :| 0 <= m < |mine| && mine[m] == s;
      assert Ids(mine)[m] == id;
    }
  }

  lemma SavedDistinct(codec: Codec, snapshot: seq<Section>, chapterId: Id, blocks: seq<Block>, newIds: seq<Id>)
    requires SaveSetting(snapshot, chapterId, blocks, newIds)
    ensures Distinct(SavedSections(codec, snapshot, chapterId, blocks, newIds))
  {
    var n := |blocks|;
    var patched := seq(|snapshot|, j requires 0 <= j < |snapshot| => Patched(codec, snapshot[j], blocks, n));
    var created := Created(codec, snapshot, chapterId, blocks, newIds, n);
    assert Upserted(codec, snapshot, chapterId, blocks, newIds, n) == patched + created;
    CreatedDistinct(codec, snapshot, chapterId, blocks, newIds, n);
    assert Distinct(patched) by {
      forall i, j | 0 <= i < j < |patched| ensures patched[i] != patched[j] {
        assert patched[i].id == snapshot[i].id && patched[j].id == snapshot[j].id;
      }
    }
    forall x | x in patched ensures x !in created {
      var j :| 0 <= j < |patched| && patched[j] == x;
      assert snapshot[j] in snapshot;
    }
    DistinctAppend(patched, created);
    FilterDistinct(patched + created,
                   (s: Section) => s.id !in Ids(SectionsOf(snapshot, chapterId)) || s.id in BlockIds(blocks));
  }

  /** A patched section of the snapshot that survives in the chapter is the expected
      section of the block that names it. */
  lemma SavedPatchedMember(codec: Codec, snapshot: seq<Section>, chapterId: Id, blocks: seq<Block>, newIds: seq<Id>, j: nat)
    requires SaveSetting(snapshot, chapterId, blocks, newIds) && j < |snapshot|
    requires snapshot[j].chapterId == chapterId
    requires snapshot[j].id !in Ids(SectionsOf(snapshot, chapterId)) || snapshot[j].id in BlockIds(blocks)
    ensures Patched(codec, snapshot[j], blocks, |blocks|) in ExpectedSections(codec, snapshot, chapterId, blocks, newIds)
  {
    var n := |blocks|;
    var s := snapshot[j];
    ChapterIdsInSnapshot(snapshot, chapterId, s.id);
    var blockIds := BlockIds(blocks);
    assert s.id in blockIds;
    var i :| 0 <= i < n && blockIds[i] == s.id;
    ExpectedFound(codec, snapshot, chapterId, blocks, newIds, i, j);
    assert ExpectedSections(codec, snapshot, chapterId, blocks, newIds)[i] == Patched(codec, s, blocks, n);
  }

  /** The section expected for a block that matches snapshot section `j` is that section
      with every block of its id saved into it. */
  lemma ExpectedFound(codec: Codec, snapshot: seq<Section>, chapterId: Id, blocks: seq<Block>, newIds: seq<Id>, i: nat, j: nat)
    requires SaveSetting(snapshot, chapterId, blocks, newIds) && i < |blocks| && j < |snapshot|
    requires blocks[i].id == snapshot[j].id
    ensures Expected(codec, snapshot, chapterId, blocks, newIds, i) == Patched(codec, snapshot[j], blocks, |blocks|)
  {
    PatchedOnce(codec, snapshot[j], blocks, |blocks|, i);
    var found := FindSection(snapshot, blocks[i].id);
    assert snapshot[j] in snapshot;
    var k :| 0 <= k < |snapshot| && snapshot[k] == found.value;
    assert k == j;
  }

  /** An expected section is in the store after the save, in the chapter. */
  lemma ExpectedSaved(codec: Codec, snapshot: seq<Section>, chapterId: Id, blocks: seq<Block>, newIds: seq<Id>, i: nat)
    requires SaveSetting(snapshot, chapterId, blocks, newIds) && i < |blocks|
    ensures var x := Expected(codec, snapshot, chapterId, blocks, newIds, i);
      x in SavedSections(codec, snapshot, chapterId, blocks, newIds) && x.chapterId == chapterId
  {
    var n := |blocks|;
    var x := Expected(codec, snapshot, chapterId, blocks, newIds, i);
    SavedShape(codec, snapshot, chapterId, blocks, newIds, x);
    var found := FindSection(snapshot, blocks[i].id);
    if found.Some? {
      var j :| 0 <= j < |snapshot| && snapshot[j] == found.value;
      ChapterIdsInSnapshot(snapshot, chapterId, blocks[i].id);
      var t :| t in snapshot && t.chapterId == chapterId && t.id == blocks[i].id;
      var m :| 0 <= m < |snapshot| && snapshot[m] == t;
      assert m == j;
      PatchedOnce(codec, snapshot[j], blocks, n, i);
      assert x == Patched(codec, snapshot[j], blocks, n);
      assert BlockIds(blocks)[i] == x.id;
    } else {
      CreatedMember(codec, snapshot, chapterId, blocks, newIds, n, x);
      ChapterIdsInSnapshot(snapshot, chapterId, x.id);
    }
  }

  /** Membership in the store after a save: a patched snapshot section or a created one,
      unless the second loop deleted it. */
  lemma SavedShape(codec: Codec, snapshot: seq<Section>, chapterId: Id, blocks: seq<Block>, newIds: seq<Id>, x: Section)
    requires AllWellTyped(blocks) && |newIds| == |blocks|
    ensures x in SavedSections(codec, snapshot, chapterId, blocks, newIds) <==>
      ((exists j :: 0 <= j < |snapshot| && x == Patched(codec, snapshot[j], blocks, |blocks|))
       || x in Created(codec, snapshot, chapterId, blocks, newIds, |blocks|))
      && (x.id !in Ids(SectionsOf(snapshot, chapterId)) || x.id in BlockIds(blocks))
  {
    var n := |blocks|;
    var chapterIds := Ids(SectionsOf(snapshot, chapterId));
    var blockIds := BlockIds(blocks);
    var keep := (s: Section) => s.id !in chapterIds || s.id in blockIds;
    var patched := seq(|snapshot|, j requires 0 <= j < |snapshot| => Patched(codec, snapshot[j], blocks, n));
    var created := Created(codec, snapshot, chapterId, blocks, newIds, n);
    assert Upserted(codec, snapshot, chapterId, blocks, newIds, n) == patched + created;
    FilterMember(patched + created, keep, x);
    if x in patched {
      var j :| 0 <= j < |snapshot| && patched[j] == x;
    }
    if exists j :: 0 <= j < |snapshot| && x == Patched(codec, snapshot[j], blocks, n) {
      var j :| 0 <= j < |snapshot| && x == Patched(codec, snapshot[j], blocks, n);
      assert patched[j] == x;
    }
  }

  /** The sections of the chapter after a save are exactly the expected ones. */
  lemma SavedMember(codec: Codec, snapshot: seq<Section>, chapterId: Id, blocks: seq<Block>, newIds: seq<Id>, x: Section)
    requires SaveSetting(snapshot, chapterId, blocks, newIds)
    ensures (x in SavedSections(codec, snapshot, chapterId, blocks, newIds) && x.chapterId == chapterId)
            <==> x in ExpectedSections(codec, snapshot, chapterId, blocks, newIds)
  {
    if x in SavedSections(codec, snapshot, chapterId, blocks, newIds) && x.chapterId == chapterId {
      SavedIsExpected(codec, snapshot, chapterId, blocks, newIds, x);
    }
    var expected := ExpectedSections(codec, snapshot, chapterId, blocks, newIds);
    if x in expected {
      var i :| 0 <= i < |blocks| && expected[i] == x;
      ExpectedSaved(codec, snapshot, chapterId, blocks, newIds, i);
    }
  }

  /** Every saved section of the chapter is one of the expected sections. */
  lemma SavedIsExpected(codec: Codec, snapshot: seq<Section>, chapterId: Id, blocks: seq<Block>, newIds: seq<Id>, x: Section)
    requires SaveSetting(snapshot, chapterId, blocks, newIds)
    requires x in SavedSections(codec, snapshot, chapterId, blocks, newIds) && x.chapterId == chapterId
    ensures x in ExpectedSections(codec, snapshot, chapterId, blocks, newIds)
  {
    var n := |blocks|;
    SavedShape(codec, snapshot, chapterId, blocks, newIds, x);
    if x in Created(codec, snapshot, chapterId, blocks, newIds, n) {
      CreatedIsExpected(codec, snapshot, chapterId, blocks, newIds, x);
    } else {
      var j :| 0 <= j < |snapshot| && x == Patched(codec, snapshot[j], blocks, n);
      SavedPatchedMember(codec, snapshot, chapterId, blocks, newIds, j);
    }
  }

  lemma CreatedIsExpected(codec: Codec, snapshot: seq<Section>, chapterId: Id, blocks: seq<Block>, newIds: seq<Id>, x: Section)
    requires AllWellTyped(blocks) && |newIds| == |blocks|
    requires x in Created(codec, snapshot, chapterId, blocks, newIds, |blocks|)
    ensures x in ExpectedSections(codec, snapshot, chapterId, blocks, newIds)
  {
    var n := |blocks|;
    CreatedMember(codec, snapshot, chapterId, blocks, newIds, n, x);
    var i :| 0 <= i < n && blocks[i].id !in SectionIds(snapshot)
             && x == NewSection(codec, chapterId, blocks, newIds, i);
    assert ExpectedSections(codec, snapshot, chapterId, blocks, newIds)[i] == x;
  }

  /** After `handleBlocksChange(blocks)`, the chapter's sections, in the order the loader
      reads them, are one per block, in block order, with order equal to the position. */
  lemma SaveThenChapterSections(codec: Codec, snapshot: seq<Section>, chapterId: Id, blocks: seq<Block>, newIds: seq<Id>)
    requires SaveSetting(snapshot, chapterId, blocks, newIds)
    ensures SectionsOf(SavedSections(codec, snapshot, chapterId, blocks, newIds), chapterId)
            == ExpectedSections(codec, snapshot, chapterId, blocks, newIds)
  {
    var saved := SavedSections(codec, snapshot, chapterId, blocks, newIds);
    var mine := Filter(saved, (s: Section) => s.chapterId == chapterId);
    var r := SectionsOf(saved, chapterId);
    var expected := ExpectedSections(codec, snapshot, chapterId, blocks, newIds);
    SavedDistinct(codec, snapshot, chapterId, blocks, newIds);
    FilterDistinct(saved, (s: Section) => s.chapterId == chapterId);
    DistinctPermutation(mine, r);
    forall x ensures x in r <==> x in expected {
      SavedMember(codec, snapshot, chapterId, blocks, newIds, x);
    }
    SortedMatchesIndexed(r, expected, SectionOrder);
  }

  /** Saving a block list and loading the chapter again gives back, for each block, the
      block as reloaded from its saved body, at its position and under the id of its
      section: the block's own id when its section existed, the new id otherwise. */
  lemma SaveThenLoad(codec: Codec, snapshot: seq<Section>, chapterId: Id, blocks: seq<Block>, newIds: seq<Id>)
    requires SaveSetting(snapshot, chapterId, blocks, newIds)
    ensures var loaded := LoadBlocks(codec, SectionsOf(SavedSections(codec, snapshot, chapterId, blocks, newIds), chapterId));
      |loaded| == |blocks|
      && forall i :: 0 <= i < |blocks| ==>
           loaded[i] == Reloaded(codec, blocks[i], SavedId(snapshot, blocks, newIds, i), i)
  {
    SaveThenChapterSections(codec, snapshot, chapterId, blocks, newIds);
  }

  /** When every block is canonical, a save followed by a load is the identity up to ids
      of new blocks and renumbering; when moreover every block already has its section and
      its order is its position, it is exactly the identity. */
  lemma SaveThenLoadCanonical(codec: Codec, snapshot: seq<Section>, chapterId: Id, blocks: seq<Block>, newIds: seq<Id>)
    requires Lawful(codec) && SaveSetting(snapshot, chapterId, blocks, newIds)
    requires forall i :: 0 <= i < |blocks| ==> Canonical(codec, blocks[i])
    ensures var loaded := LoadBlocks(codec, SectionsOf(SavedSections(codec, snapshot, chapterId, blocks, newIds), chapterId));
      |loaded| == |blocks|
      && (forall i :: 0 <= i < |blocks| ==>
            loaded[i] == blocks[i].(id := SavedId(snapshot, blocks, newIds, i), order := i))
      && ((forall i :: 0 <= i < |blocks| ==> blocks[i].id in SectionIds(snapshot) && blocks[i].order == i)
          ==> loaded == blocks)
  {
    SaveThenLoad(codec, snapshot, chapterId, blocks, newIds);
    forall i | 0 <= i < |blocks| {
      CanonicalRoundTrip(codec, blocks[i], SavedId(snapshot, blocks, newIds, i), i);
    }
  }
}
