/**
 * What the extractor promises: schema order and transparent layout fields,
 * which leaves emit, that unmatched block elements and non-object array
 * elements are skipped without disturbing their neighbours, and that every
 * record's path addresses the value it was taken from.
 */
module ExtractProperties {
  import opened Wrappers
  import opened Strings
  import opened Json
  import opened Schema
  import opened Lexical
  import opened Extract

  // ---------------------------------------------------------------------
  // Order: the output is the concatenation of the per-field outputs
  // ---------------------------------------------------------------------

  /** Walking `a + b` emits the records of `a`, then those of `b`. */
  lemma {:induction false} FieldsAppend(data: Value, a: seq<Field>, b: seq<Field>, base: string, stringify: Value -> string)
    ensures ExtractFields(data, a + b, base, stringify) ==
      Concat(ExtractFields(data, a, base, stringify), ExtractFields(data, b, base, stringify))
    decreases |b|
  {
    var fa := ExtractFields(data, a, base, stringify);
    if b == [] {
      assert a + b == a;
      assert fa.Ok? ==> fa.value + [] == fa.value;
    } else {
      var p := b[..|b| - 1];
      var last := b[|b| - 1];
      assert (a + b)[..|a + b| - 1] == a + p;
      assert (a + b)[|a + b| - 1] == last;
      FieldsAppend(data, a, p, base, stringify);
      ConcatAssoc(fa, ExtractFields(data, p, base, stringify), ExtractField(data, last, base, stringify));
    }
  }

  /** A one-field list emits what the field emits. */
  lemma FieldsSingle(data: Value, f: Field, base: string, stringify: Value -> string)
    ensures ExtractFields(data, [f], base, stringify) == ExtractField(data, f, base, stringify)
  {
    assert [f][..0] == [];
    var r := ExtractField(data, f, base, stringify);
    assert r.Ok? ==> [] + r.value == r.value;
  }

  /** The fields of every tab that has `fields`, one tab after the other. */
  function TabFields(tabs: seq<Tab>): seq<Field> {
    if tabs == [] then []
    else
      var tab := tabs[|tabs| - 1];
      TabFields(tabs[..|tabs| - 1]) + (if tab.WithFields? then tab.fields else [])
  }

  /** The fields a layout field stands for: its own `fields`, then its tabs' `fields`. */
  function LayoutFields(f: Field): seq<Field>
    requires f.Unnamed?
  {
    (if f.sub.WithFields? then f.sub.fields else []) + (if f.tabs.WithTabs? then TabFields(f.tabs.tabs) else [])
  }

  /** Walking the tabs is walking all their fields as one list. */
  lemma {:induction false} TabsFlatten(data: Value, tabs: seq<Tab>, base: string, stringify: Value -> string)
    ensures ExtractTabs(data, tabs, base, stringify) == ExtractFields(data, TabFields(tabs), base, stringify)
    decreases |tabs|
  {
    if tabs != [] {
      var p := tabs[..|tabs| - 1];
      var tab := tabs[|tabs| - 1];
      TabsFlatten(data, p, base, stringify);
      FieldsAppend(data, TabFields(p), if tab.WithFields? then tab.fields else [], base, stringify);
    }
  }

  /**
   * Layout fields are transparent: replacing one by the fields it carries
   * (its own, then each tab's) changes neither the records, their order nor
   * their paths. They add no path segment and emit nothing themselves.
   */
  lemma LayoutInline(data: Value, pre: seq<Field>, f: Field, post: seq<Field>, base: string, stringify: Value -> string)
    requires f.Unnamed?
    ensures ExtractFields(data, pre + [f] + post, base, stringify) ==
      ExtractFields(data, pre + LayoutFields(f) + post, base, stringify)
  {
    var own := if f.sub.WithFields? then f.sub.fields else [];
    var tabbed := if f.tabs.WithTabs? then TabFields(f.tabs.tabs) else [];
    var P := ExtractFields(data, pre, base, stringify);
    var Q := ExtractFields(data, post, base, stringify);
    FieldsAppend(data, pre + [f], post, base, stringify);
    FieldsAppend(data, pre, [f], base, stringify);
    FieldsSingle(data, f, base, stringify);
    FieldsAppend(data, pre + LayoutFields(f), post, base, stringify);
    FieldsAppend(data, pre, LayoutFields(f), base, stringify);
    FieldsAppend(data, own, tabbed, base, stringify);
    if f.tabs.WithTabs? {
      TabsFlatten(data, f.tabs.tabs, base, stringify);
    } else {
      var o := ExtractFields(data, own, base, stringify);
      assert o.Ok? ==> o.value + [] == o.value;
    }
  }

  // ---------------------------------------------------------------------
  // Which leaves emit
  // ---------------------------------------------------------------------

  /**
   * A text or textarea field emits at most one record, and one exactly when
   * it is localized and its value is a string with a non-white-space
   * character; the record holds the untrimmed string at `base.name`.
   */
  lemma TextFieldEmission(data: Value, f: Field, base: string, stringify: Value -> string)
    requires f.Named? && (f.ftype == Text || f.ftype == Textarea)
    ensures var r := ExtractField(data, f, base, stringify);
      r.Ok? && |r.value| <= 1
      && (|r.value| == 1 <==>
            f.localized && Lookup(data, f.name).Some? && Lookup(data, f.name).value.Str?
            && !Blank(Lookup(data, f.name).value.s))
      && (|r.value| == 1 ==>
            r.value[0] == TranslatableField(FieldPath(base, f.name), KindOf(f.ftype), Lookup(data, f.name).value.s, NoLexicalPath))
  {
    var v := Lookup(data, f.name);
    var r := ExtractField(data, f, base, stringify);
    if v.None? || v.value.Null? || !f.localized {
      assert r == Ok([]);
    } else {
      assert r == TextRecord(v.value, FieldPath(base, f.name), KindOf(f.ftype));
      if v.value.Str? {
        TrimEmptyIffBlank(v.value.s);
      }
    }
  }

  /**
   * A rich-text field emits at most one record, holding the serialisation of
   * the whole value. It emits exactly when it is localized and its value is
   * an object whose collected texts have a string with a visible character
   * before any non-string; it throws exactly when that test throws.
   */
  lemma RichTextEmission(data: Value, f: Field, base: string, stringify: Value -> string)
    requires f.Named? && f.ftype == RichText
    ensures var r := ExtractField(data, f, base, stringify);
      var v := Lookup(data, f.name);
      (r.TypeError? <==> f.localized && v.Some? && IsObject(v.value) && HasLexicalContent(v.value).TypeError?)
      && (r.Ok? ==> |r.value| <= 1)
      && (r.Ok? ==>
            (|r.value| == 1 <==>
               f.localized && v.Some? && IsObject(v.value) && LexicalTexts(v.value).Ok?
               && exists k :: VisibleAt(LexicalTexts(v.value).value, k)))
      && (r.Ok? && |r.value| == 1 ==>
            r.value[0] == TranslatableField(FieldPath(base, f.name), RichTextKind, stringify(v.value), NoLexicalPath))
  {
    var v := Lookup(data, f.name);
    if v.Some? && IsObject(v.value) && LexicalTexts(v.value).Ok? {
      SomeVisibleTrue(LexicalTexts(v.value).value);
    }
  }

  /**
   * Groups, arrays and blocks are walked the same way whether localized or
   * not, and a named field whose value is undefined or null contributes
   * nothing, whatever its type.
   */
  lemma ContainerIgnoresLocalized(data: Value, f: Field, base: string, stringify: Value -> string)
    requires f.Named? && (f.ftype == Group || f.ftype == Array || f.ftype == Blocks)
    ensures ExtractField(data, f.(localized := true), base, stringify) == ExtractField(data, f.(localized := false), base, stringify)
    ensures Lookup(data, f.name).None? || Lookup(data, f.name) == Some(Null) ==> ExtractField(data, f, base, stringify) == Ok([])
  {
  }

  /** No text, textarea or rich-text field anywhere in the schema is localized. */
  predicate SilentFields(fields: seq<Field>)
    decreases fields, 0
  {
    forall i :: 0 <= i < |fields| ==> SilentField(fields[i])
  }

  predicate SilentField(f: Field)
    decreases f, 0
  {
    match f
    case Named(_, ftype, localized, sub, blocks) =>
      ((ftype == Text || ftype == Textarea || ftype == RichText) ==> !localized)
      && (sub.WithFields? ==> SilentFields(sub.fields))
      && (blocks.WithBlocks? ==> forall b :: 0 <= b < |blocks.blocks| ==> SilentFields(blocks.blocks[b].fields))
    case Unnamed(_, sub, tabs) =>
      (sub.WithFields? ==> SilentFields(sub.fields))
      && (tabs.WithTabs? ==> forall t :: 0 <= t < |tabs.tabs| ==> tabs.tabs[t].WithFields? ==> SilentFields(tabs.tabs[t].fields))
  }

  /**
   * Only localized leaves emit: a schema without one emits nothing and never
   * throws, for every document, however its containers are localized.
   */
  lemma {:induction false} SilentFieldsEmitNothing(data: Value, fields: seq<Field>, base: string, stringify: Value -> string)
    requires SilentFields(fields)
    ensures ExtractFields(data, fields, base, stringify) == Ok([])
    decreases fields, 0, 0
  {
    if fields != [] {
      SilentFieldsEmitNothing(data, fields[..|fields| - 1], base, stringify);
      SilentFieldEmitsNothing(data, fields[|fields| - 1], base, stringify);
    }
  }

  lemma {:induction false} SilentFieldEmitsNothing(data: Value, f: Field, base: string, stringify: Value -> string)
    requires SilentField(f)
    ensures ExtractField(data, f, base, stringify) == Ok([])
    decreases f, 0, 0
  {
    match f
    case Unnamed(_, sub, tabs) =>
      if sub.WithFields? {
        SilentFieldsEmitNothing(data, sub.fields, base, stringify);
      }
      if tabs.WithTabs? {
        SilentTabsEmitNothing(data, tabs.tabs, base, stringify);
      }
    case Named(name, ftype, _, sub, blocks) =>
      var path := FieldPath(base, name);
      match Lookup(data, name)
      case None =>
      case Some(value) =>
        if !value.Null? && ftype == Group && sub.WithFields? && IsObject(value) {
          SilentFieldsEmitNothing(value, sub.fields, path, stringify);
        } else if !value.Null? && ftype == Array && sub.WithFields? && value.Arr? {
          SilentItemsEmitNothing(value.elems, sub.fields, path, stringify);
        } else if !value.Null? && ftype == Blocks && blocks.WithBlocks? && value.Arr? {
          SilentBlockItemsEmitNothing(value.elems, blocks.blocks, path, stringify);
        }
  }

  lemma {:induction false} SilentTabsEmitNothing(data: Value, tabs: seq<Tab>, base: string, stringify: Value -> string)
    requires forall t :: 0 <= t < |tabs| ==> tabs[t].WithFields? ==> SilentFields(tabs[t].fields)
    ensures ExtractTabs(data, tabs, base, stringify) == Ok([])
    decreases tabs, 0, 0
  {
    if tabs != [] {
      var tab := tabs[|tabs| - 1];
      SilentTabsEmitNothing(data, tabs[..|tabs| - 1], base, stringify);
      if tab.WithFields? {
        SilentFieldsEmitNothing(data, tab.fields, base, stringify);
      }
    }
  }

  lemma {:induction false} SilentItemsEmitNothing(items: seq<Value>, fields: seq<Field>, path: string, stringify: Value -> string)
    requires SilentFields(fields)
    ensures ExtractItems(items, fields, path, stringify) == Ok([])
    decreases fields, 2, |items|
  {
    if items != [] {
      var k := |items| - 1;
      SilentItemsEmitNothing(items[..k], fields, path, stringify);
      if IsObject(items[k]) {
        SilentFieldsEmitNothing(items[k], fields, ItemPath(path, k), stringify);
      }
    }
  }

  lemma {:induction false} SilentBlockItemsEmitNothing(items: seq<Value>, blocks: seq<Block>, path: string, stringify: Value -> string)
    requires forall b :: 0 <= b < |blocks| ==> SilentFields(blocks[b].fields)
    ensures ExtractBlockItems(items, blocks, path, stringify) == Ok([])
    decreases blocks, 2, |items|
  {
    if items != [] {
      var k := |items| - 1;
      SilentBlockItemsEmitNothing(items[..k], blocks, path, stringify);
      match SelectBlock(items[k], blocks)
      case NotFound =>
      case Found(i, _) =>
        SilentFieldsEmitNothing(items[k], blocks[i].fields, ItemPath(path, k), stringify);
    }
  }

  // ---------------------------------------------------------------------
  // Skipped elements do not disturb their neighbours
  // ---------------------------------------------------------------------

  /**
   * An element whose `blockType` matches no slug (or that has none, or is
   * not an object) contributes nothing: swapping it for any other such
   * element leaves the records of the whole blocks field unchanged, so the
   * elements around it keep their records and their indices.
   */
  lemma {:induction false} UnmatchedBlockSkipped(items: seq<Value>, i: nat, x: Value, blocks: seq<Block>, path: string, stringify: Value -> string)
    requires i < |items|
    requires SelectBlock(items[i], blocks).NotFound? && SelectBlock(x, blocks).NotFound?
    ensures ExtractBlockItems(items[i := x], blocks, path, stringify) == ExtractBlockItems(items, blocks, path, stringify)
    decreases |items|
  {
    var k := |items| - 1;
    var p := ExtractBlockItems(items[..k], blocks, path, stringify);
    if i == k {
      assert items[i := x][..k] == items[..k];
      assert p.Ok? ==> p.value + [] == p.value;
    } else {
      assert items[i := x][..k] == items[..k][i := x];
      UnmatchedBlockSkipped(items[..k], i, x, blocks, path, stringify);
    }
  }

  /**
   * A non-object element of an array field (a string, a number, `null`)
   * contributes nothing, and swapping it for another leaves the records of
   * the whole array field unchanged.
   */
  lemma {:induction false} NonObjectItemSkipped(items: seq<Value>, i: nat, x: Value, fields: seq<Field>, path: string, stringify: Value -> string)
    requires i < |items| && !IsObject(items[i]) && !IsObject(x)
    ensures ExtractItems(items[i := x], fields, path, stringify) == ExtractItems(items, fields, path, stringify)
    decreases |items|
  {
    var k := |items| - 1;
    var p := ExtractItems(items[..k], fields, path, stringify);
    if i == k {
      assert items[i := x][..k] == items[..k];
      assert p.Ok? ==> p.value + [] == p.value;
    } else {
      assert items[i := x][..k] == items[..k][i := x];
      NonObjectItemSkipped(items[..k], i, x, fields, path, stringify);
    }
  }

  // ---------------------------------------------------------------------
  // Every record addresses the value it came from
  // ---------------------------------------------------------------------

  /**
   * Every named field has a non-empty name without a dot, so that a path
   * splits back into the names and indices it was joined from.
   */
  predicate WellNamedFields(fields: seq<Field>)
    decreases fields, 0
  {
    forall i :: 0 <= i < |fields| ==> WellNamedField(fields[i])
  }

  predicate WellNamedField(f: Field)
    decreases f, 0
  {
    match f
    case Named(name, _, _, sub, blocks) =>
      name != "" && '.' !in name
      && (sub.WithFields? ==> WellNamedFields(sub.fields))
      && (blocks.WithBlocks? ==> forall b :: 0 <= b < |blocks.blocks| ==> WellNamedFields(blocks.blocks[b].fields))
    case Unnamed(_, sub, tabs) =>
      (sub.WithFields? ==> WellNamedFields(sub.fields))
      && (tabs.WithTabs? ==> forall t :: 0 <= t < |tabs.tabs| ==> tabs.tabs[t].WithFields? ==> WellNamedFields(tabs.tabs[t].fields))
  }

  /** `data` is the value found in `root` at the path `base` (the root itself for the empty path). */
  predicate Anchored(root: Value, data: Value, base: string) {
    if base == "" then data == root else GetPath(root, Split(base)) == Some(data)
  }

  /**
   * A record is addressed in `root` when the split of its path leads to the
   * value it was taken from: the very string for a text or textarea record,
   * an object that serialises to its text for a rich-text record. No record
   * carries a `lexicalPath`.
   */
  predicate Addressed(root: Value, r: TranslatableField, stringify: Value -> string) {
    r.lexicalPath == NoLexicalPath
    && GetPath(root, Split(r.path)).Some?
    && var v := GetPath(root, Split(r.path)).value;
       if r.kind == RichTextKind then IsObject(v) && r.value == stringify(v)
       else v == Str(r.value) && !Blank(r.value)
  }

  lemma IndexKeyNoDot(k: string)
    requires IsIndexKey(k)
    ensures '.' !in k
  {
  }

  /** The value of a named field is anchored at `base.name`. */
  lemma ChildAnchored(root: Value, data: Value, base: string, name: string)
    requires Anchored(root, data, base) && name != "" && '.' !in name && Has(data, name)
    ensures FieldPath(base, name) != "" && Anchored(root, Lookup(data, name).value, FieldPath(base, name))
  {
    if base == "" {
      SplitNoDot(name);
      assert [name][1..] == [];
    } else {
      SplitAppend(base, name);
      GetPathSnoc(root, Split(base), name);
    }
  }

  /** Element `j` of an array anchored at `path` is anchored at `path.j`. */
  lemma ItemAnchored(root: Value, elems: seq<Value>, path: string, j: nat)
    requires path != "" && GetPath(root, Split(path)) == Some(Arr(elems)) && j < |elems|
    ensures GetPath(root, Split(ItemPath(path, j))) == Some(elems[j])
  {
    var key := NatToString(j);
    IndexKeyNoDot(key);
    NatToStringValue(j);
    SplitAppend(path, key);
    GetPathSnoc(root, Split(path), key);
  }

  /**
   * Every record the walk emits is addressed in `root`, when the walk starts
   * from the value anchored at `base` and every field is well named.
   */
  lemma {:induction false} FieldsAddressed(root: Value, data: Value, fields: seq<Field>, base: string, stringify: Value -> string)
    requires WellNamedFields(fields) && Anchored(root, data, base)
    requires ExtractFields(data, fields, base, stringify).Ok?
    ensures forall r :: r in ExtractFields(data, fields, base, stringify).value ==> Addressed(root, r, stringify)
    decreases fields, 0, 0
  {
    if fields != [] {
      FieldsAddressed(root, data, fields[..|fields| - 1], base, stringify);
      FieldAddressed(root, data, fields[|fields| - 1], base, stringify);
    }
  }

  lemma {:induction false} FieldAddressed(root: Value, data: Value, f: Field, base: string, stringify: Value -> string)
    requires WellNamedField(f) && Anchored(root, data, base)
    requires ExtractField(data, f, base, stringify).Ok?
    ensures forall r :: r in ExtractField(data, f, base, stringify).value ==> Addressed(root, r, stringify)
    decreases f, 0, 0
  {
    match f
    case Unnamed(_, sub, tabs) =>
      if sub.WithFields? {
        FieldsAddressed(root, data, sub.fields, base, stringify);
      }
      if tabs.WithTabs? {
        TabsAddressed(root, data, tabs.tabs, base, stringify);
      }
    case Named(name, ftype, localized, sub, blocks) =>
      var path := FieldPath(base, name);
      match Lookup(data, name)
      case None =>
      case Some(value) =>
        ChildAnchored(root, data, base, name);
        assert GetPath(root, Split(path)) == Some(value);
        if value.Null? {
        } else if ftype == Group {
          if sub.WithFields? && IsObject(value) {
            FieldsAddressed(root, value, sub.fields, path, stringify);
          }
        } else if ftype == Array {
          if sub.WithFields? && value.Arr? {
            forall j | 0 <= j < |value.elems|
              ensures GetPath(root, Split(ItemPath(path, j))) == Some(value.elems[j])
            {
              ItemAnchored(root, value.elems, path, j);
            }
            ItemsAddressed(root, value.elems, sub.fields, path, stringify);
          }
        } else if ftype == Blocks {
          if blocks.WithBlocks? && value.Arr? {
            forall j | 0 <= j < |value.elems|
              ensures GetPath(root, Split(ItemPath(path, j))) == Some(value.elems[j])
            {
              ItemAnchored(root, value.elems, path, j);
            }
            BlockItemsAddressed(root, value.elems, blocks.blocks, path, stringify);
          }
        } else if localized && ftype == RichText {
          RichTextRecordAddressed(root, value, path, stringify);
        } else if localized && (ftype == Text || ftype == Textarea) {
          TextRecordAddressed(root, value, path, KindOf(ftype), stringify);
        }
  }

  lemma TextRecordAddressed(root: Value, value: Value, path: string, kind: Kind, stringify: Value -> string)
    requires kind != RichTextKind && GetPath(root, Split(path)) == Some(value)
    ensures forall r :: r in TextRecord(value, path, kind).value ==> Addressed(root, r, stringify)
  {
    if value.Str? {
      TrimEmptyIffBlank(value.s);
    }
  }

  lemma RichTextRecordAddressed(root: Value, value: Value, path: string, stringify: Value -> string)
    requires GetPath(root, Split(path)) == Some(value)
    requires RichTextRecord(value, path, stringify).Ok?
    ensures forall r :: r in RichTextRecord(value, path, stringify).value ==> Addressed(root, r, stringify)
  {
  }

  lemma {:induction false} TabsAddressed(root: Value, data: Value, tabs: seq<Tab>, base: string, stringify: Value -> string)
    requires forall t :: 0 <= t < |tabs| ==> tabs[t].WithFields? ==> WellNamedFields(tabs[t].fields)
    requires Anchored(root, data, base)
    requires ExtractTabs(data, tabs, base, stringify).Ok?
    ensures forall r :: r in ExtractTabs(data, tabs, base, stringify).value ==> Addressed(root, r, stringify)
    decreases tabs, 0, 0
  {
    if tabs != [] {
      var tab := tabs[|tabs| - 1];
      TabsAddressed(root, data, tabs[..|tabs| - 1], base, stringify);
      if tab.WithFields? {
        FieldsAddressed(root, data, tab.fields, base, stringify);
      }
    }
  }

  lemma {:induction false} ItemsAddressed(root: Value, items: seq<Value>, fields: seq<Field>, path: string, stringify: Value -> string)
    requires WellNamedFields(fields) && path != ""
    requires forall j :: 0 <= j < |items| ==> GetPath(root, Split(ItemPath(path, j))) == Some(items[j])
    requires ExtractItems(items, fields, path, stringify).Ok?
    ensures forall r :: r in ExtractItems(items, fields, path, stringify).value ==> Addressed(root, r, stringify)
    decreases fields, 2, |items|
  {
    if items != [] {
      var k := |items| - 1;
      ItemsAddressed(root, items[..k], fields, path, stringify);
      if IsObject(items[k]) {
        FieldsAddressed(root, items[k], fields, ItemPath(path, k), stringify);
      }
    }
  }

  lemma {:induction false} BlockItemsAddressed(root: Value, items: seq<Value>, blocks: seq<Block>, path: string, stringify: Value -> string)
    requires forall b :: 0 <= b < |blocks| ==> WellNamedFields(blocks[b].fields)
    requires path != ""
    requires forall j :: 0 <= j < |items| ==> GetPath(root, Split(ItemPath(path, j))) == Some(items[j])
    requires ExtractBlockItems(items, blocks, path, stringify).Ok?
    ensures forall r :: r in ExtractBlockItems(items, blocks, path, stringify).value ==> Addressed(root, r, stringify)
    decreases blocks, 2, |items|
  {
    if items != [] {
      var k := |items| - 1;
      BlockItemsAddressed(root, items[..k], blocks, path, stringify);
      match SelectBlock(items[k], blocks)
      case NotFound =>
      case Found(i, _) =>
        FieldsAddressed(root, items[k], blocks[i].fields, ItemPath(path, k), stringify);
    }
  }

  /**
   * The extractor's records, read back: for a well-named schema, reading the
   * document at each record's path (split on dots) gives the string the
   * record holds, or, for rich text, the object it serialised.
   */
  lemma ExtractedRecordsAddressed(doc: Value, schema: seq<Field>, stringify: Value -> string)
    requires WellNamedFields(schema)
    requires ExtractFields(doc, schema, "", stringify).Ok?
    ensures forall r :: r in ExtractFields(doc, schema, "", stringify).value ==> Addressed(doc, r, stringify)
  {
    FieldsAddressed(doc, doc, schema, "", stringify);
  }
}
