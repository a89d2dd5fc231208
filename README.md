# payload-translate: the extraction and reinsertion engine, in Dafny

This project models the core of the payload-translate plugin, which
translates a document of the Payload CMS between locales. The core has two
halves:

- `extractTranslatableFields` walks the collection's field schema in step
  with a document. It emits, in schema order, one `{path, type, value}`
  record for each localized `text`, `textarea` and `richText` value. A
  `path` joins field names and array indices with dots.
- `applyTranslations` copies the document. It then writes the i-th
  translation at the i-th record's path, through the auto-vivifying
  `setNestedValue`. A rich-text record that carries a `lexicalPath` instead
  goes through `applyLexicalTranslation`, which patches the `text` of one
  node of the editor state.

Modules, one file each:

- `Wrappers` (`wrappers.dfy`): `Option` stands for `undefined`. `Result`
  holds a value, or the `TypeError` the JavaScript code can throw.
- `Strings` (`strings.dfy`): `trim`, `split('.')`, and the join of a path.
  Decimal index numerals.
- `Json` (`json.dfy`): document values, JavaScript truthiness, `key in v`,
  `v[key]`, `v[key] = x`, and reading along a path.
- `Schema` (`schema.dfy`): the field configurations the walk reads, and
  the records it emits.
- `Lexical` (`lexical.dfy`): `extractLexicalTexts` with its `traverse`
  closure, and `hasLexicalContent`.
- `Extract` (`extract.dfy`): the walk as functions of the inputs. Also the
  method `ExtractTranslatableFields`, which runs the source's loops and is
  proved to compute those functions.
- `ExtractProperties` (`extract_properties.dfy`): what the walk promises.
- `Apply` (`apply.dfy`): `getNestedValue`, `setNestedValue`,
  `applyLexicalTranslation` and `applyTranslations`. Each is a method
  proved against a function.
- `ApplyProperties` (`apply_properties.dfy`): what reinsertion promises.
- `RoundTrip` (`round_trip.dfy`): extraction followed by reinsertion, and
  the corrected reinsertion of rich text.

Documents are values:
`Null | Bool | Num | Str | Obj(map) | Arr(seq)`. The methods keep the
source's loops and their `current` variable. A write through `current`
becomes the same tree with one key replaced on every level above it.
`setNestedValue` keeps the parents it passes as frames and carries the
assignment back up through them. `applyLexicalTranslation` overwrites the
address its walk reached. Every JavaScript `TypeError` the code can raise
is a `Result.TypeError`. These are:

- `in` on a primitive;
- assigning a property of a primitive (module code is strict);
- reading `type` of a `null` rich-text node;
- iterating a truthy, non-iterable `children`;
- calling `trim` on a collected text that is not a string.

`JSON.stringify` is a parameter `stringify: Value -> string`. The
`JSON.parse(JSON.stringify(...))` deep copy is the value itself.

Where the code's comments suggest more than the code does, the model
follows the code:

- The comment at `src/utils/extractTranslatableFields.ts:126` speaks of
  extracting individual text nodes, but the code emits one record per
  rich-text field, whose value is the serialisation of the whole editor
  state. No node, a link's label included, is left out of it.
- The comment at `src/utils/applyTranslations.ts:18` speaks of applying a
  translation to the specific text node, but the record type has no
  `lexicalPath`, so that branch is never taken for extracted records. A
  rich-text field is written with `setNestedValue` as a string (see
  Findings), although the comment at `:21` reserves that branch for text
  and textarea.
- A record whose address is missing from the document is not skipped:
  `setNestedValue` creates the missing containers, and throws when the
  path runs into a primitive.

## Model

| member | source | states |
|---|---|---|
| `Strings.TrimEmptyIffBlank` | src/utils/extractTranslatableFields.ts:142 | `s.trim()` is empty exactly when every character of `s` is ECMAScript white space |
| `Strings.SplitJoin` | src/utils/applyTranslations.ts:87 | splitting a dot-joined path on `.` gives back its segments when none holds a dot |
| `Strings.JoinSplit` | src/utils/applyTranslations.ts:72 | joining the pieces of `split('.')` with dots restores the string |
| `Strings.SplitAppend` | src/utils/extractTranslatableFields.ts:32 | appending `.name` to a base path appends `name` to its split, when `name` has no dot |
| `Strings.NatToStringValue` | src/utils/extractTranslatableFields.ts:55 | the numeral written for index `i` in `${fieldPath}.${index}` reads back as `i` |
| `Strings.IndexKeyInjective` | src/utils/applyTranslations.ts:76 | two canonical index keys that name the same array element are the same key |
| `Json.Lookup` | src/utils/applyTranslations.ts:76-77 | `v[key]` is defined exactly when `key in v`; it is the object's entry or the array's element |
| `Json.Put` | src/utils/applyTranslations.ts:102 | `v[key] = x` keeps the kind of container; afterwards `v[key]` reads `x` for an object or an index key; an array is unchanged by a non-index key |
| `Json.PutOther` | src/utils/applyTranslations.ts:102 | assigning one key leaves every other key of the container as it was |
| `Json.PutSame` | src/utils/applyTranslations.ts:57 | the self-assignment `current[key] = current[key]` changes nothing |
| `Schema.FindBlock` | src/utils/extractTranslatableFields.ts:64 | `find` returns the first block configuration whose slug equals the element's `blockType`, and reports none when no slug matches |
| `Lexical.OwnText` | src/utils/extractTranslatableFields.ts:176-178 | a node pushes its own `text` exactly when its `type` is `'text'` and its `text` is truthy |
| `Lexical.Traverse` | src/utils/extractTranslatableFields.ts:175-184 | `traverse` appends to the caller's texts exactly what `Collect` gives for the node, or throws when it does |
| `Lexical.ExtractLexicalTexts` | src/utils/extractTranslatableFields.ts:163-188 | gives `[]` for a non-object state or a state without truthy `root.children`; otherwise the texts `traverse` collects from the root |
| `Lexical.CollectIsPreOrder` | src/utils/extractTranslatableFields.ts:175-184 | when the walk does not throw, it returns the `text` of the text nodes in pre-order, children left to right |
| `Lexical.CollectTruthy` | src/utils/extractTranslatableFields.ts:176 | every collected text is truthy, so empty and missing texts are never collected |
| `Lexical.SomeVisibleTrue` | src/utils/extractTranslatableFields.ts:192 | `some(text => text.trim().length > 0)` is true exactly when a string with a visible character comes before any non-string |
| `Lexical.SomeVisibleFalse` | src/utils/extractTranslatableFields.ts:192 | the test is false exactly when every collected text is a blank string |
| `Lexical.HasContentNonEmpty` | src/utils/extractTranslatableFields.ts:190-193 | `hasLexicalContent` holds only when `extractLexicalTexts` found at least one text |
| `Extract.SelectBlock` | src/utils/extractTranslatableFields.ts:63-64 | an element selects a block exactly when it is an object whose `blockType` is a string equal to some configuration's `slug`; the block selected is the first with that slug, and nothing is selected otherwise |
| `Extract.ExtractTranslatableFields` | src/utils/extractTranslatableFields.ts:5-154 | the loop over the fields, with its pushes, computes exactly the walk `ExtractFields` that the lemmas below describe |
| `Extract.VisitField` | src/utils/extractTranslatableFields.ts:12-36 | one pass of the loop contributes exactly the records `ExtractField` gives for that field: a field without a name goes to the layout walk, and a named field whose value is undefined or null contributes nothing |
| `Extract.VisitLayout` | src/utils/extractTranslatableFields.ts:14-29 | a layout field contributes the records of its own `fields`, followed by those of its tabs, all walked with the same data and base path |
| `Extract.VisitUnlocalized` | src/utils/extractTranslatableFields.ts:39-77 | a field that is not localized contributes only what its group, array items or blocks contain, never a text of its own |
| `Extract.VisitLocalized` | src/utils/extractTranslatableFields.ts:80-150 | the `switch` on the type of a localized field contributes what `ExtractField` gives, including a rich-text walk that throws |
| `Extract.VisitRichText` | src/utils/extractTranslatableFields.ts:124-137 | a rich-text object contributes one record holding its serialisation, and only when `hasLexicalContent` holds and the text walk finds a text; a throw in either walk propagates |
| `Extract.WalkTabs` | src/utils/extractTranslatableFields.ts:21-28 | the loop over the tabs walks, in order, every tab that has `fields`, with the same data and base path |
| `Extract.ForEachItem` | src/utils/extractTranslatableFields.ts:82-93 | `forEach` over an array field walks, in index order, each element that is an object, under `fieldPath.index` |
| `Extract.ForEachBlock` | src/utils/extractTranslatableFields.ts:95-111 | `forEach` over a blocks field walks, in index order, each element with the block it selects, under `fieldPath.index` |
| `ExtractProperties.FieldsAppend` | src/utils/extractTranslatableFields.ts:12 | the records of `a + b` are the records of `a` followed by those of `b`; the first throw wins |
| `ExtractProperties.TabsFlatten` | src/utils/extractTranslatableFields.ts:21-28 | walking the tabs is walking the concatenation of their `fields` |
| `ExtractProperties.LayoutInline` | src/utils/extractTranslatableFields.ts:14-30 | replacing a layout field by its fields, then its tabs' fields, changes neither the records, their order nor their paths |
| `ExtractProperties.TextFieldEmission` | src/utils/extractTranslatableFields.ts:139-149 | a text or textarea field emits exactly one record iff it is localized and its value is a string with a non-blank `trim()`; the record holds the untrimmed value at `base ? base.name : name`; otherwise it emits nothing |
| `ExtractProperties.RichTextEmission` | src/utils/extractTranslatableFields.ts:124-137 | a rich-text field emits at most one record, exactly when it is localized and its value is an object with a visible collected text; the record holds the serialisation of the whole value; it throws exactly when `hasLexicalContent` throws |
| `ExtractProperties.ContainerIgnoresLocalized` | src/utils/extractTranslatableFields.ts:36-77 | groups, arrays and blocks are walked the same whether localized or not; an undefined or null value contributes nothing |
| `ExtractProperties.SilentFieldsEmitNothing` | src/utils/extractTranslatableFields.ts:38-77 | a schema without a localized text, textarea or rich-text field emits nothing and never throws, for every document |
| `ExtractProperties.UnmatchedBlockSkipped` | src/utils/extractTranslatableFields.ts:61-75 | an element that selects no block configuration contributes nothing; swapping it for another such element leaves the records of the whole field unchanged |
| `ExtractProperties.NonObjectItemSkipped` | src/utils/extractTranslatableFields.ts:49-60 | a non-object array element contributes nothing; swapping it for another leaves the records of the whole field unchanged |
| `ExtractProperties.ChildAnchored` | src/utils/extractTranslatableFields.ts:32-33 | the value of a named field is found in the document at the path `base ? base.name : name` |
| `ExtractProperties.ItemAnchored` | src/utils/extractTranslatableFields.ts:55 | element `i` of an array found at `fieldPath` is found at `fieldPath.i` |
| `ExtractProperties.FieldsAddressed` | src/utils/extractTranslatableFields.ts:5-154 | for well-named fields, the split path of every record reads, in the document, the record's non-blank string, or the object whose serialisation it holds; no record has a `lexicalPath` |
| `ExtractProperties.ExtractedRecordsAddressed` | src/utils/extractTranslatableFields.ts:32-33 | the same for a walk started at the document root with an empty base path |
| `Apply.Container` | src/utils/applyTranslations.ts:96 | a missing key gets `[]` when the next segment is numeric and `{}` otherwise |
| `Apply.GetNestedValue` | src/utils/applyTranslations.ts:71-84 | the loop returns the value at the split path, or undefined as soon as a segment is missing or the current value is not an object |
| `Apply.SetNestedValue` | src/utils/applyTranslations.ts:86-103 | the loop, with its container creation and final assignment, produces exactly `SetPath` of the split path, or throws when it does |
| `Apply.LexicalTarget` | src/utils/applyTranslations.ts:43-66 | the node patched is at `fieldPath`, then `lexicalPath`, then `text`, and that address exists in the document |
| `Apply.ApplyLexicalTranslation` | src/utils/applyTranslations.ts:36-69 | the navigation loop and the final write produce exactly `ApplyLexical` |
| `Apply.ApplyTranslations` | src/utils/applyTranslations.ts:3-27 | the `forEach` over the records produces exactly `ApplyAll`, and throws when a write throws |
| `ApplyProperties.SetPathReadBack` | src/utils/applyTranslations.ts:90-102 | a write whose steps land in the value succeeds, and reading its path back gives the value written |
| `ApplyProperties.SetPathFrame` | src/utils/applyTranslations.ts:86-103 | every existing path that parts from the written one reads the same afterwards, so existing containers are reused with their other keys |
| `ApplyProperties.SetPathExisting` | src/utils/applyTranslations.ts:94-102 | along an existing path nothing is created, and only the final value is replaced |
| `ApplyProperties.SetPathSame` | src/utils/applyTranslations.ts:86-103 | writing back the value a path already holds leaves the document unchanged |
| `ApplyProperties.ReplaceAtSame` | src/utils/applyTranslations.ts:57 | overwriting a value with itself changes nothing |
| `ApplyProperties.ReplaceAtRead` | src/utils/applyTranslations.ts:67 | after overwriting an existing path, the path reads the new value |
| `ApplyProperties.ReplaceAtFrame` | src/utils/applyTranslations.ts:66-68 | overwriting an existing path changes no path that parts from it |
| `ApplyProperties.SetPathCreates` | src/utils/applyTranslations.ts:94-97 | a missing key of an object gets an array when the next segment is numeric and an object otherwise |
| `ApplyProperties.ApplyLexicalEffect` | src/utils/applyTranslations.ts:43-68 | the rich-text branch leaves the document unchanged when the value is not an object, a `lexicalPath` segment is missing or the node has no `text`; when the value at the field path is an object, the `lexicalPath` is found from it and the node is an object with `text`, that `text` reads the translation |
| `ApplyProperties.ApplyLexicalFrame` | src/utils/applyTranslations.ts:66-68 | the rich-text branch changes no path other than the node's `text` |
| `ApplyProperties.SurplusTranslationsIgnored` | src/utils/applyTranslations.ts:11-15 | translations beyond the last record do not change the result |
| `ApplyProperties.MissingTranslationsSkipped` | src/utils/applyTranslations.ts:11-15 | with fewer translations than records, only the first records are written and the rest keep the copied values |
| `ApplyProperties.LastWriteWins` | src/utils/applyTranslations.ts:17-23 | after a record written with `setNestedValue`, its path reads its translation, whatever earlier records wrote there |
| `RoundTrip.OwnValues` | src/endpoints/translateHandler.ts:86 | the texts sent for translation are the records' values, index for index |
| `RoundTrip.ApplyOwnValues` | src/utils/applyTranslations.ts:11-24 | writing back the extracted values of addressed, non-rich-text records leaves the document unchanged |
| `RoundTrip.ExtractApplyIdentity` | src/utils/applyTranslations.ts:3-27 | for a well-named schema, applying to a document its own extracted values gives the same document when no record is rich text |
| `RoundTrip.RichTextBecomesString` | src/utils/applyTranslations.ts:17-23 | a rich-text record takes the `setNestedValue` branch, and writing back its own value replaces the editor-state object with a string |
| `RoundTrip.ParsedAgreesOnText` | src/utils/applyTranslations.ts:20-23 | the corrected reinsertion agrees with the written one when no record is rich text |
| `RoundTrip.ExtractApplyIdentityParsed` | src/utils/applyTranslations.ts:3-27 | with rich text parsed back, applying a document's own extracted values gives the same document, rich text included |

## Left out

- JavaScript's prototype chain: keys such as `constructor` or an array's
  `length` are not keys of the model's values. `key in v` and `v[key]` see
  only the value's own entries and canonical array indices.
- `!isNaN(Number(nextKey))` is approximated as "every character is a
  decimal digit", the empty string included. Other numeric forms
  (`" 1 "`, `"1e3"`, `"0x1"`, `"-1"`, `"Infinity"`) pick an object where
  the code picks an array.
- Json.Put: writing under a non-canonical key of an array (such as
  `"01"` or `"foo"`) sets a property that is not part of the JSON value;
  the model leaves the value unchanged. In the code the property stays on
  the array for the rest of the run, so a later `key in current` test in
  `getNestedValue` or `setNestedValue` sees it, where the model finds
  nothing and creates a fresh container: from `{a: []}`, writing `"x"` at
  `a.foo` and then `"y"` at `a.foo.bar` throws in the code (a property of
  the string `"x"` is assigned) and gives back the document in the model.
  This cannot happen for extracted records: their paths already exist in
  the copy (`ExtractProperties.ExtractedRecordsAddressed`), and `Has` on
  an array holds only for index keys.
- Apply.SetNestedValue: writing past the end of an array leaves holes in
  the code; the model fills them with `null`, which is what they become
  once serialised. A hole is not `in` its array, so a later write through
  it creates a container in the code, while the model reads `null` there
  and throws: from `{a: []}`, writing `a.2.x` and then `a.1.y` gives
  `a = [<hole>, {y}, {x}]` in the code and a `TypeError` in the model.
  This cannot happen for extracted records: their paths already exist in
  the copy (`ExtractProperties.ExtractedRecordsAddressed`), and along an
  existing path a write creates nothing (`ApplyProperties.SetPathExisting`).
- Numbers are integers. The engine only tests them for truthiness.
- `JSON.stringify` is a parameter. The deep copy by `JSON.parse` is the
  value itself, since a document value has no shared subtrees and no
  `undefined`.
- The translations are strings. A non-string that the provider's parsed
  output might hold is not modelled.
- The field configurations are taken to be objects. `'fields' in tab` on a
  non-object tab would throw; the model does not allow such a tab.
- The `layout` of an unnamed field (row, collapsible, tabs) is carried
  but never read, as in the code.
- The translation provider (`src/services/gemini.ts`) is not part of this
  model: its network call, prompt and output parsing. Only its consequence
  is kept: the number of translations may differ from the number of
  records.
- Also not part of this model: the HTTP handler
  (`src/endpoints/translateHandler.ts`), the plugin wiring
  (`src/index.ts`), the React components, and the development tests.
- `async`, logging and persistence.
- In-place mutation is modelled on values. Aliasing is not modelled: the
  copied document has none, and the containers the code creates are
  fresh.

## Findings

| source | as written | input that shows it | evidently intended | confidence | as-written member | corrected member |
|---|---|---|---|---|---|---|
| src/utils/applyTranslations.ts:17-23 | records never carry a `lexicalPath`, so a rich-text record is written with `setNestedValue(result, path, translation)` as a string | a localized rich-text field whose editor state has a visible text, translated with its own serialisation as the translation: the field becomes a string | the rich-text field stays an editor-state object, so the translated serialisation is parsed back (or patched node by node through `lexicalPath`) | high, not executed | `RoundTrip.RichTextBecomesString` | `RoundTrip.ExtractApplyIdentityParsed` |
