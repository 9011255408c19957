/** The block list editor of a chapter (components/CanvaChapterEditor.tsx): creating,
    appending, updating and deleting blocks, and reordering them by drag and drop. Each
    operation computes the new list that the editor hands to its owner. */
module CanvaChapterEditor {
  import opened Wrappers
  import opened Seqs
  import opened Types
  import opened BlockTypes

  /** Every block's order is its position. */
  predicate OrderIsIndex(blocks: seq<Block>) {
    forall i :: 0 <= i < |blocks| ==> blocks[i].order == i
  }

  /** The blocks with their order field cleared, to compare lists up to renumbering. */
  function Unordered(blocks: seq<Block>): (r: seq<Block>)
    ensures |r| == |blocks|
    ensures forall i :: 0 <= i < |blocks| ==> r[i] == blocks[i].(order := 0)
  {
    seq(|blocks|, i requires 0 <= i < |blocks| => blocks[i].(order := 0))
  }

  lemma UnorderedAppend(a: seq<Block>, b: seq<Block>)
    ensures Unordered(a + b) == Unordered(a) + Unordered(b)
  {
  }

  /** `.map((block, index) => ({ ...block, order: index }))`. */
  function Renumber(blocks: seq<Block>): (r: seq<Block>)
    ensures |r| == |blocks| && OrderIsIndex(r)
    ensures Unordered(r) == Unordered(blocks)
  {
    seq(|blocks|, i requires 0 <= i < |blocks| => blocks[i].(order := i))
  }

  /** Some block carries id `id`. */
  predicate HasId(blocks: seq<Block>, id: Id) {
    exists i :: 0 <= i < |blocks| && blocks[i].id == id
  }

  /** `findIndex(block => block.id === id)`: the first position with that id, or -1. */
  function IndexOfId(blocks: seq<Block>, id: Id): (r: int)
    ensures -1 <= r < |blocks|
    ensures r >= 0 ==> blocks[r].id == id && forall j :: 0 <= j < r ==> blocks[j].id != id
    ensures r == -1 <==> !HasId(blocks, id)
  {
    if blocks == [] then -1
    else if blocks[0].id == id then 0
    else
      var r := IndexOfId(blocks[1..], id);
      assert HasId(blocks, id) <==> HasId(blocks[1..], id) by {
        if HasId(blocks, id) {
          var i :| 0 <= i < |blocks| && blocks[i].id == id;
          assert blocks[1..][i - 1] == blocks[i];
        }
        if HasId(blocks[1..], id) {
          var i :| 0 <= i < |blocks[1..]| && blocks[1..][i].id == id;
          assert blocks[i + 1] == blocks[1..][i];
        }
      }
      if r == -1 then -1 else r + 1
  }

  // ---------------------------------------------------------------------------------------
  // Drag and drop.

  /** The two splices of `handleDragEnd`: take the element at `from` out, then insert it at
      `to` of the shortened list. */
  function Moved<T>(s: seq<T>, from: nat, to: nat): (r: seq<T>)
    requires from < |s| && to < |s|
    ensures |r| == |s|
  {
    var rest := s[..from] + s[from + 1..];
    rest[..to] + [s[from]] + rest[to..]
  }

  /** A move is a permutation that puts the moved element at `to` and keeps the others in
      their relative order; moving onto the same place changes nothing. */
  lemma MovedProperties<T>(s: seq<T>, from: nat, to: nat)
    requires from < |s| && to < |s|
    ensures multiset(Moved(s, from, to)) == multiset(s)
    ensures Moved(s, from, to)[to] == s[from]
    ensures Moved(s, from, to)[..to] + Moved(s, from, to)[to + 1..] == s[..from] + s[from + 1..]
    ensures from == to ==> Moved(s, from, to) == s
  {
    var rest := s[..from] + s[from + 1..];
    var r := Moved(s, from, to);
    assert r == rest[..to] + [s[from]] + rest[to..];
    assert r[..to] == rest[..to];
    assert r[to + 1..] == rest[to..];
    assert rest[..to] + rest[to..] == rest;
    calc {
      multiset(r);
      multiset(rest[..to]) + multiset{s[from]} + multiset(rest[to..]);
      multiset(rest) + multiset{s[from]};
      { assert s == s[..from] + [s[from]] + s[from + 1..]; }
      multiset(s);
    }
    if from == to {
      assert rest[..to] == s[..from];
      assert rest[to..] == s[from + 1..];
      assert s == s[..from] + [s[from]] + s[from + 1..];
    }
  }

  lemma UnorderedMoved(blocks: seq<Block>, from: nat, to: nat)
    requires from < |blocks| && to < |blocks|
    ensures Unordered(Moved(blocks, from, to)) == Moved(Unordered(blocks), from, to)
  {
    var u := Unordered(blocks);
    assert Unordered(blocks[..from] + blocks[from + 1..]) == u[..from] + u[from + 1..];
    var rest := blocks[..from] + blocks[from + 1..];
    var urest := u[..from] + u[from + 1..];
    assert Unordered(rest[..to]) == urest[..to];
    assert Unordered(rest[to..]) == urest[to..];
    UnorderedAppend(rest[..to] + [blocks[from]], rest[to..]);
    UnorderedAppend(rest[..to], [blocks[from]]);
  }

  /** `handleDragEnd(active, over)`: the list handed on, or `None` when the drag ends
      without a target or on the dragged block itself. The dragged and the target ids are
      ids of the list's blocks, since only those are sortable. */
  method DragEnd(blocks: seq<Block>, activeId: Id, overId: Option<Id>) returns (result: Option<seq<Block>>)
    requires HasId(blocks, activeId)
    requires overId.Some? ==> HasId(blocks, overId.value)
    ensures (overId.None? || overId.value == activeId) ==> result == None
    ensures overId.Some? && overId.value != activeId ==>
      result == Some(Renumber(Moved(blocks, IndexOfId(blocks, activeId), IndexOfId(blocks, overId.value))))
  {
    if overId.None? {
      return None;
    }
    if activeId != overId.value {
      var activeIndex := IndexOfId(blocks, activeId);
      var overIndex := IndexOfId(blocks, overId.value);
      var newBlocks := blocks;
      var reorderedBlock := newBlocks[activeIndex];
      newBlocks := newBlocks[..activeIndex] + newBlocks[activeIndex + 1..];
      newBlocks := newBlocks[..overIndex] + [reorderedBlock] + newBlocks[overIndex..];
      result := Some(Renumber(newBlocks));
    } else {
      result := None;
    }
  }

  /** The list after a drag is the old list permuted (up to order fields): the dragged
      block lands at the target position, the other blocks keep their relative order, and
      every order equals its position. */
  lemma DragPermutes(blocks: seq<Block>, from: nat, to: nat)
    requires from < |blocks| && to < |blocks|
    ensures var r := Renumber(Moved(blocks, from, to));
      |r| == |blocks| && OrderIsIndex(r)
      && r[to] == blocks[from].(order := to)
      && multiset(Unordered(r)) == multiset(Unordered(blocks))
      && Unordered(r)[..to] + Unordered(r)[to + 1..] == Unordered(blocks[..from] + blocks[from + 1..])
  {
    var u := Unordered(blocks);
    var m := Moved(blocks, from, to);
    var r := Renumber(m);
    UnorderedMoved(blocks, from, to);
    assert Unordered(r) == Moved(u, from, to);
    MovedProperties(blocks, from, to);
    assert r[to] == m[to].(order := to);
    MovedProperties(u, from, to);
    assert Unordered(blocks[..from] + blocks[from + 1..]) == u[..from] + u[from + 1..];
  }

  // ---------------------------------------------------------------------------------------
  // Creating and appending.

  /** The fixed content of a new block of each kind. */
  function DefaultContent(t: BlockType): (c: Content)
    ensures KindOf(c) == t
  {
    match t
    case Text => TextContent("Start typing your content here...", DefaultTextStyle())
    case Heading => HeadingContent("Your heading here", 2, HeadingStyle(Left, "#ffffff"))
    case Image => ImageContent("https://picsum.photos/600/400", "Image", Some(""), ImageStyle(Cover, 8, None))
    case Quote => QuoteContent("Your inspiring quote goes here...", Some(""), QuoteStyle(Left, "#ffffff", "#6366f1"))
    case List => ListContent(["First item", "Second item", "Third item"], false, ListStyle("#ffffff"))
    case Divider => DividerContent(DividerStyle("#4b5563", 2))
  }

  /** `createBlock(type)` with the new id `id` in a list of `count` blocks: a well-typed
      block at position `count`, at the origin, 100 wide and 60 high (a divider 20 high). */
  function CreateBlock(t: BlockType, id: Id, count: int): (b: Block)
    ensures WellTyped(b) && b.btype == t && b.id == id && b.order == count
    ensures b.x == 0 && b.y == 0 && b.width == 100
    ensures b.height == if t == Divider then 20 else 60
  {
    Block(id, t, count, 0, 0, 100, if t == Divider then 20 else 60, DefaultContent(t))
  }

  /** `addBlock(type)`: the old blocks untouched, then one new block. */
  function AddBlock(blocks: seq<Block>, t: BlockType, id: Id): (r: seq<Block>)
    ensures |r| == |blocks| + 1 && r[..|blocks|] == blocks
    ensures r[|blocks|] == CreateBlock(t, id, |blocks|) && r[|blocks|].order == |blocks|
    ensures OrderIsIndex(blocks) ==> OrderIsIndex(r)
  {
    blocks + [CreateBlock(t, id, |blocks|)]
  }

  // ---------------------------------------------------------------------------------------
  // Updating and deleting.

  /** `Partial<ContentBlock>`: the keys an update sets. */
  datatype BlockPatch = BlockPatch(
    id: Option<Id>,
    btype: Option<BlockType>,
    order: Option<int>,
    x: Option<int>,
    y: Option<int>,
    width: Option<int>,
    height: Option<int>,
    content: Option<Content>)

  function PatchBlock(b: Block, p: BlockPatch): Block {
    Block(p.id.GetOr(b.id), p.btype.GetOr(b.btype), p.order.GetOr(b.order), p.x.GetOr(b.x),
          p.y.GetOr(b.y), p.width.GetOr(b.width), p.height.GetOr(b.height), p.content.GetOr(b.content))
  }

  /** `updateBlock(id, updates)`: blocks with another id are unchanged. */
  function UpdateBlock(blocks: seq<Block>, id: Id, p: BlockPatch): (r: seq<Block>)
    ensures |r| == |blocks|
    ensures forall i :: 0 <= i < |blocks| && blocks[i].id != id ==> r[i] == blocks[i]
    ensures forall i :: 0 <= i < |blocks| && blocks[i].id == id ==> r[i] == PatchBlock(blocks[i], p)
  {
    seq(|blocks|, i requires 0 <= i < |blocks| =>
      if blocks[i].id == id then PatchBlock(blocks[i], p) else blocks[i])
  }

  /** Updating an id no block carries changes nothing; an update that does not set the
      order keeps "order equals position". */
  lemma UpdateBlockFacts(blocks: seq<Block>, id: Id, p: BlockPatch)
    ensures !HasId(blocks, id) ==> UpdateBlock(blocks, id, p) == blocks
    ensures p.order.None? && OrderIsIndex(blocks) ==> OrderIsIndex(UpdateBlock(blocks, id, p))
  {
    if !HasId(blocks, id) {
      var r := UpdateBlock(blocks, id, p);
      forall i | 0 <= i < |blocks| ensures r[i] == blocks[i] {
        assert blocks[i].id != id;
      }
    }
  }

  /** `deleteBlock(id)`: the blocks without that id, in their old relative order,
      renumbered. */
  function DeleteBlock(blocks: seq<Block>, id: Id): (r: seq<Block>)
    ensures OrderIsIndex(r)
    ensures forall i :: 0 <= i < |r| ==> r[i].id != id
    ensures Unordered(r) == Unordered(Filter(blocks, (b: Block) => b.id != id))
  {
    var kept := Filter(blocks, (b: Block) => b.id != id);
    var r := Renumber(kept);
    forall i | 0 <= i < |r| ensures r[i].id != id {
      assert kept[i] in kept;
      FilterMember(blocks, (b: Block) => b.id != id, kept[i]);
    }
    r
  }

  /** Every block with another id survives a delete (with a new order), and the list
      shrinks by exactly the number of blocks carrying the id. */
  lemma DeleteBlockKeeps(blocks: seq<Block>, id: Id, b: Block)
    requires b in blocks && b.id != id
    ensures b.(order := 0) in Unordered(DeleteBlock(blocks, id))
    ensures |DeleteBlock(blocks, id)| == |blocks| - |Filter(blocks, (c: Block) => c.id == id)|
  {
    var kept := Filter(blocks, (b: Block) => b.id != id);
    FilterSplitsLength(blocks, (b: Block) => b.id != id, (c: Block) => c.id == id);
    FilterMember(blocks, (b: Block) => b.id != id, b);
    var k :| 0 <= k < |kept| && kept[k] == b;
    assert Unordered(kept)[k] == b.(order := 0);
  }
}
