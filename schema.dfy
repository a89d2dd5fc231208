/**
 * The field schema the extractor walks (the host framework's field
 * configuration, reduced to what the walk reads) and the records it emits.
 */
module Schema {

  /** The `type` of a named field; every other type is `Other`. */
  datatype FieldType = Text | Textarea | RichText | Group | Array | Blocks | Other

  /** Whether a configuration object has a `fields` key, and its value. */
  datatype Nested = NoFields | WithFields(fields: seq<Field>)

  /** One tab of a tabs field; the walk reads only whether it has `fields`. */
  type Tab = Nested

  /** Whether a field has a `tabs` key, and its value. */
  datatype TabList = NoTabs | WithTabs(tabs: seq<Tab>)

  /** A block configuration of a blocks field. */
  datatype Block = Block(slug: string, fields: seq<Field>)

  /** Whether a field has a `blocks` key, and its value. */
  datatype BlockList = NoBlocks | WithBlocks(blocks: seq<Block>)

  /**
   * A field configuration. A field with a `name` is `Named`; a layout field
   * without one is `Unnamed`: its `layout` type (row, collapsible, tabs,
   * ...) is not read by the walk, which looks only at the `fields` and
   * `tabs` it may carry.
   */
  datatype Field =
    | Named(name: string, ftype: FieldType, localized: bool, sub: Nested, blocks: BlockList)
    | Unnamed(layout: string, sub: Nested, tabs: TabList)

  /** The `type` of an emitted record. */
  datatype Kind = TextKind | TextareaKind | RichTextKind

  /**
   * One translatable value: where it sits (a dot-joined path), its kind and
   * its text. `lexicalPath`, the address of one text node inside a rich-text
   * value, is read by the applier but is not a member of the record type the
   * extractor produces, so the extractor always leaves it `None`.
   */
  datatype TranslatableField = TranslatableField(path: string, kind: Kind, value: string, lexicalPath: LexicalPath)

  /** An optional address inside a rich-text value. */
  datatype LexicalPath = NoLexicalPath | LexicalAt(at: string)

  /** `Array.prototype.find` over the block configurations by `slug`. */
  function FindBlock(blocks: seq<Block>, slug: string): (r: BlockLookup)
    ensures r.Found? ==> r.index < |blocks| && blocks[r.index].slug == slug
    ensures r.Found? ==> r.block == blocks[r.index]
    ensures r.Found? ==> forall j :: 0 <= j < r.index ==> blocks[j].slug != slug
    ensures r.NotFound? ==> forall j :: 0 <= j < |blocks| ==> blocks[j].slug != slug
  {
    if blocks == [] then NotFound
    else if blocks[0].slug == slug then Found(0, blocks[0])
    else
      match FindBlock(blocks[1..], slug)
      case NotFound => NotFound
      case Found(i, b) => Found(i + 1, b)
  }

  /** The outcome of `FindBlock`: the first configuration with the slug, and its position. */
  datatype BlockLookup = NotFound | Found(index: nat, block: Block)
}
