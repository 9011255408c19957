/** The content blocks of the visual chapter editor (lib/block-types.ts): six block kinds,
    each with its own content shape, plus position and size. */
module BlockTypes {
  import opened Wrappers
  import opened Types

  /** The six block tags. */
  datatype BlockType = Text | Heading | Image | Quote | List | Divider

  datatype Align = Left | Center | Right
  datatype FontWeight = WeightNormal | WeightBold
  datatype FontStyle = StyleNormal | StyleItalic
  datatype ObjectFit = Cover | Contain | Fill

  /** A heading level, 1 to 6. */
  type HeadingLevel = l: int | 1 <= l <= 6 witness 1

  /** A text style; the line height is kept in tenths (16 stands for 1.6), which are the
      only values the editor writes. */
  datatype TextStyle = TextStyle(
    fontSize: int,
    fontWeight: FontWeight,
    fontStyle: FontStyle,
    textAlign: Align,
    color: string,
    lineHeightTenths: int)

  datatype HeadingStyle = HeadingStyle(textAlign: Align, color: string)

  /** The image style; `color` is not declared for images, but the style panel's colour
      picker writes it into any block's style. */
  datatype ImageStyle = ImageStyle(objectFit: ObjectFit, borderRadius: int, color: Option<string>)

  datatype QuoteStyle = QuoteStyle(textAlign: Align, color: string, borderColor: string)

  datatype ListStyle = ListStyle(color: string)

  datatype DividerStyle = DividerStyle(color: string, thickness: int)

  /** A block's content: one shape per block kind (the closed union `AnyBlock`). */
  datatype Content =
    | TextContent(text: string, textStyle: TextStyle)
    | HeadingContent(text: string, level: HeadingLevel, headingStyle: HeadingStyle)
    | ImageContent(src: string, alt: string, caption: Option<string>, imageStyle: ImageStyle)
    | QuoteContent(text: string, author: Option<string>, quoteStyle: QuoteStyle)
    | ListContent(items: seq<string>, ordered: bool, listStyle: ListStyle)
    | DividerContent(dividerStyle: DividerStyle)

  /** A block: identity, tag, position in the chapter, geometry and content. The tag and the
      content are separate fields, as in the source, where `content` is untyped. */
  datatype Block = Block(
    id: Id,
    btype: BlockType,
    order: int,
    x: int,
    y: int,
    width: int,
    height: int,
    content: Content)

  /** The tag whose content shape `c` has. */
  function KindOf(c: Content): BlockType {
    match c
    case TextContent(_, _) => Text
    case HeadingContent(_, _, _) => Heading
    case ImageContent(_, _, _, _) => Image
    case QuoteContent(_, _, _) => Quote
    case ListContent(_, _, _) => List
    case DividerContent(_) => Divider
  }

  /** The block's tag agrees with its content shape. */
  predicate WellTyped(b: Block) {
    KindOf(b.content) == b.btype
  }

  /** The text style of a new or reloaded text block. */
  function DefaultTextStyle(): TextStyle {
    TextStyle(16, WeightNormal, StyleNormal, Left, "#ffffff", 16)
  }
}
