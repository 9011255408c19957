/** The content and style edits of one block (components/BlockEditor.tsx). Every edit
    rebuilds the block's content and is handed on as an update that sets only `content`. */
module BlockEditor {
  import opened Wrappers
  import opened Types
  import opened BlockTypes
  import opened CanvaChapterEditor

  /** `handleContentUpdate(newContent)`: the update `{ content: newContent }`. */
  function ContentUpdate(c: Content): BlockPatch {
    BlockPatch(None, None, None, None, None, None, None, Some(c))
  }

  /** A content update changes the content of the block and nothing else. */
  lemma ContentUpdateOnlyContent(b: Block, c: Content)
    ensures PatchBlock(b, ContentUpdate(c)) == b.(content := c)
  {
  }

  /** Applied through `updateBlock`, a content update leaves every other block, and every
      other field, as it was. */
  lemma ContentUpdateInList(blocks: seq<Block>, id: Id, c: Content)
    ensures var r := UpdateBlock(blocks, id, ContentUpdate(c));
      |r| == |blocks|
      && forall i :: 0 <= i < |blocks| ==>
           r[i] == if blocks[i].id == id then blocks[i].(content := c) else blocks[i]
  {
  }

  // ---------------------------------------------------------------------------------------
  // Text fields.

  predicate HasText(c: Content) {
    c.TextContent? || c.HeadingContent? || c.QuoteContent?
  }

  /** Typing into a text, heading or quote block replaces the text and keeps the style. */
  function SetText(c: Content, t: string): (r: Content)
    requires HasText(c)
    ensures KindOf(r) == KindOf(c) && r.text == t
    ensures c.TextContent? ==> r.textStyle == c.textStyle
    ensures c.HeadingContent? ==> r.headingStyle == c.headingStyle && r.level == c.level
    ensures c.QuoteContent? ==> r.quoteStyle == c.quoteStyle && r.author == c.author
  {
    c.(text := t)
  }

  function SetSrc(c: Content, src: string): (r: Content)
    requires c.ImageContent?
    ensures r.ImageContent? && r.src == src && r.(src := c.src) == c
  {
    c.(src := src)
  }

  function SetAlt(c: Content, alt: string): (r: Content)
    requires c.ImageContent?
    ensures r.ImageContent? && r.alt == alt && r.(alt := c.alt) == c
  {
    c.(alt := alt)
  }

  function SetCaption(c: Content, caption: string): (r: Content)
    requires c.ImageContent?
    ensures r.ImageContent? && r.caption == Some(caption) && r.(caption := c.caption) == c
  {
    c.(caption := Some(caption))
  }

  function SetAuthor(c: Content, author: string): (r: Content)
    requires c.QuoteContent?
    ensures r.QuoteContent? && r.author == Some(author) && r.(author := c.author) == c
  {
    c.(author := Some(author))
  }

  // ---------------------------------------------------------------------------------------
  // Lists.

  /** "Bulleted" and "Numbered": set the flag, keep the items. */
  function SetOrdered(c: Content, ordered: bool): (r: Content)
    requires c.ListContent?
    ensures r.ListContent? && r.ordered == ordered && r.items == c.items && r.listStyle == c.listStyle
  {
    c.(ordered := ordered)
  }

  /** Editing item `index` replaces that item only. */
  function EditItem(c: Content, index: nat, item: string): (r: Content)
    requires c.ListContent? && index < |c.items|
    ensures r.ListContent? && |r.items| == |c.items| && r.items[index] == item
    ensures forall j :: 0 <= j < |c.items| && j != index ==> r.items[j] == c.items[j]
    ensures r.ordered == c.ordered && r.listStyle == c.listStyle
  {
    var newItems := c.items[index := item];
    c.(items := newItems)
  }

  /** "Add Item" appends "New item". */
  function AddItem(c: Content): (r: Content)
    requires c.ListContent?
    ensures r.ListContent? && |r.items| == |c.items| + 1
    ensures r.items[..|c.items|] == c.items && r.items[|c.items|] == "New item"
    ensures r.ordered == c.ordered && r.listStyle == c.listStyle
  {
    c.(items := c.items + ["New item"])
  }

  // ---------------------------------------------------------------------------------------
  // The style panel.

  /** The bold button flips the weight between normal and bold. */
  function ToggleBold(c: Content): (r: Content)
    requires c.TextContent?
    ensures r.TextContent? && r.text == c.text
    ensures r.textStyle.fontWeight != c.textStyle.fontWeight
    ensures r.textStyle.(fontWeight := c.textStyle.fontWeight) == c.textStyle
  {
    var w := if c.textStyle.fontWeight == WeightBold then WeightNormal else WeightBold;
    c.(textStyle := c.textStyle.(fontWeight := w))
  }

  /** The italic button flips the style between normal and italic. */
  function ToggleItalic(c: Content): (r: Content)
    requires c.TextContent?
    ensures r.TextContent? && r.text == c.text
    ensures r.textStyle.fontStyle != c.textStyle.fontStyle
    ensures r.textStyle.(fontStyle := c.textStyle.fontStyle) == c.textStyle
  {
    var s := if c.textStyle.fontStyle == StyleItalic then StyleNormal else StyleItalic;
    c.(textStyle := c.textStyle.(fontStyle := s))
  }

  lemma ToggleBoldTwice(c: Content)
    requires c.TextContent?
    ensures ToggleBold(ToggleBold(c)) == c
  {
  }

  lemma ToggleItalicTwice(c: Content)
    requires c.TextContent?
    ensures ToggleItalic(ToggleItalic(c)) == c
  {
  }

  function SetAlign(c: Content, align: Align): (r: Content)
    requires c.TextContent?
    ensures r.TextContent? && r.text == c.text && r.textStyle.textAlign == align
    ensures r.textStyle.(textAlign := c.textStyle.textAlign) == c.textStyle
  {
    c.(textStyle := c.textStyle.(textAlign := align))
  }

  /** The font-size slider (12 to 32). */
  function SetFontSize(c: Content, size: int): (r: Content)
    requires c.TextContent? && 12 <= size <= 32
    ensures r.TextContent? && r.text == c.text && r.textStyle.fontSize == size
    ensures r.textStyle.(fontSize := c.textStyle.fontSize) == c.textStyle
  {
    c.(textStyle := c.textStyle.(fontSize := size))
  }

  /** The colour of a block's style; images have no declared colour until one is picked. */
  function ColorOf(c: Content): Option<string> {
    match c
    case TextContent(_, s) => Some(s.color)
    case HeadingContent(_, _, s) => Some(s.color)
    case ImageContent(_, _, _, s) => s.color
    case QuoteContent(_, _, s) => Some(s.color)
    case ListContent(_, _, s) => Some(s.color)
    case DividerContent(s) => Some(s.color)
  }

  /** The colour picker, offered for every block kind: sets the style's colour and keeps the
      rest of the content. */
  function SetColor(c: Content, color: string): (r: Content)
    ensures KindOf(r) == KindOf(c) && ColorOf(r) == Some(color)
    ensures HasText(c) ==> r.text == c.text
    ensures c.ListContent? ==> r.items == c.items
  {
    match c
    case TextContent(t, s) => TextContent(t, s.(color := color))
    case HeadingContent(t, l, s) => HeadingContent(t, l, s.(color := color))
    case ImageContent(src, alt, cap, s) => ImageContent(src, alt, cap, s.(color := Some(color)))
    case QuoteContent(t, a, s) => QuoteContent(t, a, s.(color := color))
    case ListContent(items, o, s) => ListContent(items, o, s.(color := color))
    case DividerContent(s) => DividerContent(s.(color := color))
  }

  /** Text edits and style edits touch disjoint parts of a text block: editing the text and
      then toggling bold is the same as the other way round. */
  lemma TextAndStyleCommute(c: Content, t: string)
    requires c.TextContent?
    ensures ToggleBold(SetText(c, t)) == SetText(ToggleBold(c), t)
    ensures ToggleItalic(SetText(c, t)) == SetText(ToggleItalic(c), t)
  {
  }
}
