/**
 * The schema-directed extractor: `extractTranslatableFields` walks a list of
 * field configurations in step with a document value and emits, in schema
 * order, one record per localized text, textarea or rich-text value.
 */
module Extract {
  import opened Wrappers
  import opened Strings
  import opened Json
  import opened Schema
  import opened Lexical

  type Records = seq<TranslatableField>

  /** `basePath ? `${basePath}.${field.name}` : field.name` (an empty base is falsy). */
  function FieldPath(base: string, name: string): string {
    if base != "" then base + "." + name else name
  }

  /** `${fieldPath}.${index}`: the base path of one array or blocks element. */
  function ItemPath(path: string, index: nat): string {
    path + "." + NatToString(index)
  }

  /** The record kind of a text or textarea field. */
  function KindOf(t: FieldType): Kind
    requires t == Text || t == Textarea
  {
    if t == Text then TextKind else TextareaKind
  }

  // ---------------------------------------------------------------------
  // The walk, as functions of the inputs
  // ---------------------------------------------------------------------

  /**
   * The records for `fields`, field after field; the first throw (from a
   * rich-text value) aborts the walk. `stringify` is `JSON.stringify`.
   */
  function ExtractFields(data: Value, fields: seq<Field>, base: string, stringify: Value -> string): Result<Records>
    decreases fields, 0, 0
  {
    if fields == [] then Ok([])
    else Concat(ExtractFields(data, fields[..|fields| - 1], base, stringify),
                ExtractField(data, fields[|fields| - 1], base, stringify))
  }

  /**
   * The records one field contributes. Layout fields walk their `fields` and
   * each tab's `fields` against the same data and base path. A named field
   * whose value is undefined or null contributes nothing; groups, arrays and
   * blocks are descended into whether localized or not; text, textarea and
   * rich-text values emit only when the field is localized.
   */
  function ExtractField(data: Value, field: Field, base: string, stringify: Value -> string): Result<Records>
    decreases field, 0, 0
  {
    match field
    case Unnamed(_, sub, tabs) =>
      Concat(if sub.WithFields? then ExtractFields(data, sub.fields, base, stringify) else Ok([]),
             if tabs.WithTabs? then ExtractTabs(data, tabs.tabs, base, stringify) else Ok([]))
    case Named(name, ftype, localized, sub, blocks) =>
      var path := FieldPath(base, name);
      match Lookup(data, name)
      case None => Ok([])
      case Some(value) =>
        if value.Null? then Ok([])
        else if ftype == Group then
          if sub.WithFields? && IsObject(value) then ExtractFields(value, sub.fields, path, stringify) else Ok([])
        else if ftype == Array then
          if sub.WithFields? && value.Arr? then ExtractItems(value.elems, sub.fields, path, stringify) else Ok([])
        else if ftype == Blocks then
          if blocks.WithBlocks? && value.Arr? then ExtractBlockItems(value.elems, blocks.blocks, path, stringify) else Ok([])
        else if !localized then Ok([])
        else if ftype == RichText then RichTextRecord(value, path, stringify)
        else if ftype == Text || ftype == Textarea then TextRecord(value, path, KindOf(ftype))
        else Ok([])
  }

  /** The tabs of a tabs field, in order; a tab without `fields` is skipped. */
  function ExtractTabs(data: Value, tabs: seq<Tab>, base: string, stringify: Value -> string): Result<Records>
    decreases tabs, 0, 0
  {
    if tabs == [] then Ok([])
    else
      var tab := tabs[|tabs| - 1];
      Concat(ExtractTabs(data, tabs[..|tabs| - 1], base, stringify),
             if tab.WithFields? then ExtractFields(data, tab.fields, base, stringify) else Ok([]))
  }

  /** The records of one array element: only objects (arrays included) are walked. */
  function ExtractItem(item: Value, index: nat, fields: seq<Field>, path: string, stringify: Value -> string): Result<Records>
    decreases fields, 1, 0
  {
    if IsObject(item) then ExtractFields(item, fields, ItemPath(path, index), stringify) else Ok([])
  }

  /** The elements of an array field, in ascending index order. */
  function ExtractItems(items: seq<Value>, fields: seq<Field>, path: string, stringify: Value -> string): Result<Records>
    decreases fields, 2, |items|
  {
    if items == [] then Ok([])
    else Concat(ExtractItems(items[..|items| - 1], fields, path, stringify),
                ExtractItem(items[|items| - 1], |items| - 1, fields, path, stringify))
  }

  /**
   * The block configuration an element selects: the first whose `slug`
   * equals the element's `blockType`. An element that is not an object, has
   * no `blockType` or matches no slug selects none.
   */
  function SelectBlock(item: Value, blocks: seq<Block>): (r: BlockLookup)
    ensures r.Found? <==>
      IsObject(item) && Has(item, "blockType") && Lookup(item, "blockType").value.Str?
      && exists j :: 0 <= j < |blocks| && blocks[j].slug == Lookup(item, "blockType").value.s
    ensures r.Found? ==> r.index < |blocks| && r.block == blocks[r.index]
    ensures r.Found? ==> blocks[r.index].slug == Lookup(item, "blockType").value.s
    ensures r.Found? ==> forall j :: 0 <= j < r.index ==> blocks[j].slug != Lookup(item, "blockType").value.s
  {
    if !IsObject(item) || !Has(item, "blockType") then NotFound
    else
      match Lookup(item, "blockType").value
      case Str(t) => FindBlock(blocks, t)
      case _ => NotFound
  }

  /** The records of one blocks element, walked with the block it selects. */
  function ExtractBlockItem(item: Value, index: nat, blocks: seq<Block>, path: string, stringify: Value -> string): Result<Records>
    decreases blocks, 1, 0
  {
    match SelectBlock(item, blocks)
    case NotFound => Ok([])
    case Found(_, b) => ExtractFields(item, b.fields, ItemPath(path, index), stringify)
  }

  /** The elements of a blocks field, in ascending index order. */
  function ExtractBlockItems(items: seq<Value>, blocks: seq<Block>, path: string, stringify: Value -> string): Result<Records>
    decreases blocks, 2, |items|
  {
    if items == [] then Ok([])
    else Concat(ExtractBlockItems(items[..|items| - 1], blocks, path, stringify),
                ExtractBlockItem(items[|items| - 1], |items| - 1, blocks, path, stringify))
  }

  /** A localized text or textarea value emits itself, untrimmed, when `value.trim()` is non-empty. */
  function TextRecord(value: Value, path: string, kind: Kind): Result<Records> {
    if value.Str? && |Trim(value.s)| > 0 then Ok([TranslatableField(path, kind, value.s, NoLexicalPath)])
    else Ok([])
  }

  /**
   * A localized rich-text value emits one record holding the serialisation
   * of the whole value, when `hasLexicalContent` holds and
   * `extractLexicalTexts` finds at least one text; both may throw.
   */
  function RichTextRecord(value: Value, path: string, stringify: Value -> string): Result<Records> {
    if !IsObject(value) then Ok([])
    else
      match HasLexicalContent(value)
      case TypeError => TypeError
      case Ok(has) =>
        if !has then Ok([])
        else
          match LexicalTexts(value)
          case TypeError => TypeError
          case Ok(texts) =>
            if |texts| > 0 then Ok([TranslatableField(path, RichTextKind, stringify(value), NoLexicalPath)])
            else Ok([])
  }

  // ---------------------------------------------------------------------
  // A throw part-way through a list aborts the whole list
  // ---------------------------------------------------------------------

  lemma {:induction false} FieldsThrow(data: Value, fields: seq<Field>, i: nat, base: string, stringify: Value -> string)
    requires i <= |fields| && ExtractFields(data, fields[..i], base, stringify).TypeError?
    ensures ExtractFields(data, fields, base, stringify).TypeError?
    decreases |fields|
  {
    if i < |fields| {
      assert fields[..|fields| - 1][..i] == fields[..i];
      FieldsThrow(data, fields[..|fields| - 1], i, base, stringify);
    } else {
      assert fields[..i] == fields;
    }
  }

  lemma {:induction false} TabsThrow(data: Value, tabs: seq<Tab>, i: nat, base: string, stringify: Value -> string)
    requires i <= |tabs| && ExtractTabs(data, tabs[..i], base, stringify).TypeError?
    ensures ExtractTabs(data, tabs, base, stringify).TypeError?
    decreases |tabs|
  {
    if i < |tabs| {
      assert tabs[..|tabs| - 1][..i] == tabs[..i];
      TabsThrow(data, tabs[..|tabs| - 1], i, base, stringify);
    } else {
      assert tabs[..i] == tabs;
    }
  }

  lemma {:induction false} ItemsThrow(items: seq<Value>, i: nat, fields: seq<Field>, path: string, stringify: Value -> string)
    requires i <= |items| && ExtractItems(items[..i], fields, path, stringify).TypeError?
    ensures ExtractItems(items, fields, path, stringify).TypeError?
    decreases |items|
  {
    if i < |items| {
      assert items[..|items| - 1][..i] == items[..i];
      ItemsThrow(items[..|items| - 1], i, fields, path, stringify);
    } else {
      assert items[..i] == items;
    }
  }

  lemma {:induction false} BlockItemsThrow(items: seq<Value>, i: nat, blocks: seq<Block>, path: string, stringify: Value -> string)
    requires i <= |items| && ExtractBlockItems(items[..i], blocks, path, stringify).TypeError?
    ensures ExtractBlockItems(items, blocks, path, stringify).TypeError?
    decreases |items|
  {
    if i < |items| {
      assert items[..|items| - 1][..i] == items[..i];
      BlockItemsThrow(items[..|items| - 1], i, blocks, path, stringify);
    } else {
      assert items[..i] == items;
    }
  }

  // ---------------------------------------------------------------------
  // The walk as the source runs it: loops pushing into an array
  // ---------------------------------------------------------------------

  /**
   * `extractTranslatableFields(data, fields, basePath)`: the `for` loop over
   * the fields, pushing each field's records. It computes exactly
   * `ExtractFields`, so every property proved of that function holds of it.
   */
  method ExtractTranslatableFields(data: Value, fields: seq<Field>, basePath: string, stringify: Value -> string)
    returns (r: Result<Records>)
    ensures r == ExtractFields(data, fields, basePath, stringify)
    decreases fields, 0, 0
  {
    var translatableFields: Records := [];
    var i := 0;
    while i < |fields|
      invariant 0 <= i <= |fields|
      invariant ExtractFields(data, fields[..i], basePath, stringify) == Ok(translatableFields)
    {
      assert fields[..i + 1][..i] == fields[..i];
      var part := VisitField(data, fields[i], basePath, stringify);
      if part.TypeError? {
        FieldsThrow(data, fields, i + 1, basePath, stringify);
        return TypeError;
      }
      translatableFields := translatableFields + part.value;
      i := i + 1;
    }
    assert fields[..i] == fields;
    return Ok(translatableFields);
  }

  /**
   * The body of the loop over the fields: what one field pushes. A named
   * field whose value is undefined or null is skipped.
   */
  method VisitField(data: Value, field: Field, basePath: string, stringify: Value -> string)
    returns (part: Result<Records>)
    ensures part == ExtractField(data, field, basePath, stringify)
    decreases field, 1, 0
  {
    if field.Unnamed? {
      part := VisitLayout(data, field, basePath, stringify);
    } else {
      var value := Lookup(data, field.name);
      if value.None? || value.value.Null? {
        part := Ok([]);
      } else if !field.localized {
        part := VisitUnlocalized(data, field, basePath, stringify);
      } else {
        part := VisitLocalized(data, field, basePath, stringify);
      }
    }
  }

  /** A layout field: its `fields`, then its tabs' `fields`, with the same data and base path. */
  method VisitLayout(data: Value, field: Field, basePath: string, stringify: Value -> string)
    returns (part: Result<Records>)
    requires field.Unnamed?
    ensures part == ExtractField(data, field, basePath, stringify)
    decreases field, 0, 0
  {
    part := Ok([]);
    if field.sub.WithFields? {
      part := ExtractTranslatableFields(data, field.sub.fields, basePath, stringify);
    }
    if part.Ok? && field.tabs.WithTabs? {
      var tabFields := WalkTabs(data, field.tabs.tabs, basePath, stringify);
      part := Concat(part, tabFields);
    } else if part.Ok? {
      assert part.value + [] == part.value;
    }
  }

  /** A named field that is not localized: groups, arrays and blocks are still descended into. */
  method VisitUnlocalized(data: Value, field: Field, basePath: string, stringify: Value -> string)
    returns (part: Result<Records>)
    requires field.Named? && !field.localized
    requires Lookup(data, field.name).Some? && !Lookup(data, field.name).value.Null?
    ensures part == ExtractField(data, field, basePath, stringify)
    decreases field, 0, 0
  {
    var fieldPath := if basePath != "" then basePath + "." + field.name else field.name;
    var value := Lookup(data, field.name).value;
    part := Ok([]);
    if field.ftype == Group && field.sub.WithFields? && IsObject(value) {
      part := ExtractTranslatableFields(value, field.sub.fields, fieldPath, stringify);
    }
    if field.ftype == Array && field.sub.WithFields? && value.Arr? {
      part := ForEachItem(value.elems, field.sub.fields, fieldPath, stringify);
    }
    if field.ftype == Blocks && field.blocks.WithBlocks? && value.Arr? {
      part := ForEachBlock(value.elems, field.blocks.blocks, fieldPath, stringify);
    }
  }

  /** A localized named field: the `switch` on its type. */
  method VisitLocalized(data: Value, field: Field, basePath: string, stringify: Value -> string)
    returns (part: Result<Records>)
    requires field.Named? && field.localized
    requires Lookup(data, field.name).Some? && !Lookup(data, field.name).value.Null?
    ensures part == ExtractField(data, field, basePath, stringify)
    decreases field, 0, 0
  {
    var fieldPath := if basePath != "" then basePath + "." + field.name else field.name;
    var value := Lookup(data, field.name).value;
    part := Ok([]);
    match field.ftype
    case Array =>
      if field.sub.WithFields? && value.Arr? {
        part := ForEachItem(value.elems, field.sub.fields, fieldPath, stringify);
      }
    case Blocks =>
      if field.blocks.WithBlocks? && value.Arr? {
        part := ForEachBlock(value.elems, field.blocks.blocks, fieldPath, stringify);
      }
    case Group =>
      if field.sub.WithFields? && IsObject(value) {
        part := ExtractTranslatableFields(value, field.sub.fields, fieldPath, stringify);
      }
    case RichText =>
      if Truthy(value) {
        part := VisitRichText(value, fieldPath, stringify);
      }
    case Text =>
      if value.Str? && |Trim(value.s)| > 0 {
        part := Ok([TranslatableField(fieldPath, TextKind, value.s, NoLexicalPath)]);
      }
    case Textarea =>
      if value.Str? && |Trim(value.s)| > 0 {
        part := Ok([TranslatableField(fieldPath, TextareaKind, value.s, NoLexicalPath)]);
      }
    case Other =>
  }

  /**
   * A localized rich-text value: `hasLexicalContent`, then
   * `extractLexicalTexts`, and one record holding the serialisation.
   */
  method VisitRichText(value: Value, fieldPath: string, stringify: Value -> string)
    returns (part: Result<Records>)
    ensures part == RichTextRecord(value, fieldPath, stringify)
  {
    part := Ok([]);
    if IsObject(value) {
      var has := HasLexicalContent(value);
      if has.TypeError? {
        part := TypeError;
      } else if has.value {
        var richTextTexts := ExtractLexicalTexts(value);
        if richTextTexts.TypeError? {
          part := TypeError;
        } else if |richTextTexts.value| > 0 {
          part := Ok([TranslatableField(fieldPath, RichTextKind, stringify(value), NoLexicalPath)]);
        }
      }
    }
  }

  /** `for (const tab of field.tabs)`: each tab with `fields`, same data, same base path. */
  method WalkTabs(data: Value, tabs: seq<Tab>, basePath: string, stringify: Value -> string)
    returns (r: Result<Records>)
    ensures r == ExtractTabs(data, tabs, basePath, stringify)
    decreases tabs, 1, 0
  {
    var out: Records := [];
    var j := 0;
    while j < |tabs|
      invariant 0 <= j <= |tabs|
      invariant ExtractTabs(data, tabs[..j], basePath, stringify) == Ok(out)
    {
      assert tabs[..j + 1][..j] == tabs[..j];
      if tabs[j].WithFields? {
        var tabFields := ExtractTranslatableFields(data, tabs[j].fields, basePath, stringify);
        if tabFields.TypeError? {
          TabsThrow(data, tabs, j + 1, basePath, stringify);
          return TypeError;
        }
        out := out + tabFields.value;
      } else {
        assert out + [] == out;
      }
      j := j + 1;
    }
    assert tabs[..j] == tabs;
    return Ok(out);
  }

  /** `value.forEach((item, index) => ...)` over an array field's elements. */
  method ForEachItem(items: seq<Value>, fields: seq<Field>, fieldPath: string, stringify: Value -> string)
    returns (r: Result<Records>)
    ensures r == ExtractItems(items, fields, fieldPath, stringify)
    decreases fields, 1, 0
  {
    var out: Records := [];
    var index := 0;
    while index < |items|
      invariant 0 <= index <= |items|
      invariant ExtractItems(items[..index], fields, fieldPath, stringify) == Ok(out)
    {
      assert items[..index + 1][..index] == items[..index];
      var item := items[index];
      if IsObject(item) {
        var itemFields := ExtractTranslatableFields(item, fields, fieldPath + "." + NatToString(index), stringify);
        if itemFields.TypeError? {
          ItemsThrow(items, index + 1, fields, fieldPath, stringify);
          return TypeError;
        }
        out := out + itemFields.value;
      } else {
        assert out + [] == out;
      }
      index := index + 1;
    }
    assert items[..index] == items;
    return Ok(out);
  }

  /**
   * `value.forEach((block, index) => ...)` over a blocks field's elements:
   * each element is walked with the first block configuration whose slug is
   * its `blockType`; other elements are skipped.
   */
  method ForEachBlock(items: seq<Value>, blocks: seq<Block>, fieldPath: string, stringify: Value -> string)
    returns (r: Result<Records>)
    ensures r == ExtractBlockItems(items, blocks, fieldPath, stringify)
    decreases blocks, 1, 0
  {
    var out: Records := [];
    var index := 0;
    while index < |items|
      invariant 0 <= index <= |items|
      invariant ExtractBlockItems(items[..index], blocks, fieldPath, stringify) == Ok(out)
    {
      assert items[..index + 1][..index] == items[..index];
      var block := items[index];
      var blockConfig := SelectBlock(block, blocks);
      if blockConfig.Found? {
        var blockFields := ExtractTranslatableFields(block, blockConfig.block.fields, fieldPath + "." + NatToString(index), stringify);
        if blockFields.TypeError? {
          BlockItemsThrow(items, index + 1, blocks, fieldPath, stringify);
          return TypeError;
        }
        out := out + blockFields.value;
      } else {
        assert out + [] == out;
      }
      index := index + 1;
    }
    assert items[..index] == items;
    return Ok(out);
  }
}
