/**
 * Extraction followed by reinsertion. Feeding every record its own value
 * back restores a document without rich text exactly. A rich-text record
 * takes the `setNestedValue` branch, because no record carries a
 * `lexicalPath`, and turns the editor state into a string; the corrected
 * reinsertion parses a rich-text translation back into a value.
 */
module RoundTrip {
  import opened Wrappers
  import opened Strings
  import opened Json
  import opened Schema
  import opened Extract
  import opened ExtractProperties
  import opened Apply
  import opened ApplyProperties

  /** `fields.map(f => f.value)`: the texts sent for translation. */
  function OwnValues(rs: seq<TranslatableField>): (ts: seq<string>)
    ensures |ts| == |rs| && forall i :: 0 <= i < |rs| ==> ts[i] == rs[i].value
  {
    if rs == [] then [] else OwnValues(rs[..|rs| - 1]) + [rs[|rs| - 1].value]
  }

  /**
   * Writing back, in order, the values of records that are addressed in the
   * document and are not rich text changes nothing, however many of them
   * have a translation.
   */
  lemma {:induction false} ApplyOwnValues(doc: Value, rs: seq<TranslatableField>, ts: seq<string>, stringify: Value -> string)
    requires forall i :: 0 <= i < |rs| ==> Addressed(doc, rs[i], stringify) && rs[i].kind != RichTextKind
    requires forall i :: 0 <= i < |rs| && i < |ts| ==> ts[i] == rs[i].value
    ensures ApplyAll(doc, rs, ts) == Ok(doc)
    decreases |rs|
  {
    if rs != [] {
      var k := |rs| - 1;
      ApplyOwnValues(doc, rs[..k], ts, stringify);
      if k < |ts| {
        SetPathSame(doc, Split(rs[k].path), Str(ts[k]));
      }
    }
  }

  /**
   * The round trip: for a schema whose field names are non-empty and free of
   * dots, applying to a document the values extracted from it, as the
   * translations, gives back the same document when no record is rich text.
   */
  lemma ExtractApplyIdentity(doc: Value, schema: seq<Field>, stringify: Value -> string)
    requires WellNamedFields(schema)
    requires ExtractFields(doc, schema, "", stringify).Ok?
    requires forall r :: r in ExtractFields(doc, schema, "", stringify).value ==> r.kind != RichTextKind
    ensures var rs := ExtractFields(doc, schema, "", stringify).value;
      ApplyAll(doc, rs, OwnValues(rs)) == Ok(doc)
  {
    var rs := ExtractFields(doc, schema, "", stringify).value;
    ExtractedRecordsAddressed(doc, schema, stringify);
    ApplyOwnValues(doc, rs, OwnValues(rs), stringify);
  }

  /**
   * As written, a rich-text record written back with its own value (the
   * serialisation of the editor state) replaces the editor-state object at
   * its path by that string.
   */
  lemma RichTextBecomesString(doc: Value, schema: seq<Field>, stringify: Value -> string, r: TranslatableField)
    requires WellNamedFields(schema)
    requires ExtractFields(doc, schema, "", stringify).Ok?
    requires r in ExtractFields(doc, schema, "", stringify).value && r.kind == RichTextKind
    ensures !UsesLexicalBranch(r)
    ensures ApplyOne(doc, r, r.value).Ok?
    ensures GetPath(ApplyOne(doc, r, r.value).value, Split(r.path)) == Some(Str(r.value))
    ensures GetPath(doc, Split(r.path)).Some? && IsObject(GetPath(doc, Split(r.path)).value)
    ensures ApplyOne(doc, r, r.value).value != doc
  {
    ExtractedRecordsAddressed(doc, schema, stringify);
    var keys := Split(r.path);
    SetPathExisting(doc, keys, Str(r.value));
    ReplaceAtRead(doc, keys, Str(r.value));
  }

  // ---------------------------------------------------------------------
  // The corrected reinsertion: rich text is parsed back
  // ---------------------------------------------------------------------

  /**
   * One write, with a rich-text translation outside the `lexicalPath`
   * branch parsed back into a value (`parse` is `JSON.parse`).
   */
  function ApplyOneParsed(doc: Value, f: TranslatableField, translation: string, parse: string -> Value): Result<Value> {
    if UsesLexicalBranch(f) then Ok(ApplyLexical(doc, f.path, f.lexicalPath.at, translation))
    else if f.kind == RichTextKind then SetPath(doc, Split(f.path), parse(translation))
    else SetPath(doc, Split(f.path), Str(translation))
  }

  /** `applyTranslations` with the corrected write. */
  function ApplyAllParsed(doc: Value, fields: seq<TranslatableField>, translations: seq<string>, parse: string -> Value): Result<Value>
    decreases |fields|
  {
    if fields == [] then Ok(doc)
    else
      var k := |fields| - 1;
      match ApplyAllParsed(doc, fields[..k], translations, parse)
      case TypeError => TypeError
      case Ok(d) => if k < |translations| then ApplyOneParsed(d, fields[k], translations[k], parse) else Ok(d)
  }

  /** The corrected write agrees with the written one on every record that is not rich text. */
  lemma {:induction false} ParsedAgreesOnText(doc: Value, fields: seq<TranslatableField>, translations: seq<string>, parse: string -> Value)
    requires forall i :: 0 <= i < |fields| ==> fields[i].kind != RichTextKind
    ensures ApplyAllParsed(doc, fields, translations, parse) == ApplyAll(doc, fields, translations)
    decreases |fields|
  {
    if fields != [] {
      ParsedAgreesOnText(doc, fields[..|fields| - 1], translations, parse);
    }
  }

  lemma {:induction false} ApplyOwnValuesParsed(doc: Value, rs: seq<TranslatableField>, ts: seq<string>, stringify: Value -> string, parse: string -> Value)
    requires forall v :: parse(stringify(v)) == v
    requires forall i :: 0 <= i < |rs| ==> Addressed(doc, rs[i], stringify)
    requires forall i :: 0 <= i < |rs| && i < |ts| ==> ts[i] == rs[i].value
    ensures ApplyAllParsed(doc, rs, ts, parse) == Ok(doc)
    decreases |rs|
  {
    if rs != [] {
      var k := |rs| - 1;
      ApplyOwnValuesParsed(doc, rs[..k], ts, stringify, parse);
      if k < |ts| {
        var keys := Split(rs[k].path);
        var v := GetPath(doc, keys).value;
        if rs[k].kind == RichTextKind {
          assert parse(ts[k]) == v;
          SetPathSame(doc, keys, v);
        } else {
          SetPathSame(doc, keys, Str(ts[k]));
        }
      }
    }
  }

  /**
   * With rich text parsed back, the round trip restores every document,
   * rich text included, when `parse` inverts `stringify`.
   */
  lemma ExtractApplyIdentityParsed(doc: Value, schema: seq<Field>, stringify: Value -> string, parse: string -> Value)
    requires forall v :: parse(stringify(v)) == v
    requires WellNamedFields(schema)
    requires ExtractFields(doc, schema, "", stringify).Ok?
    ensures var rs := ExtractFields(doc, schema, "", stringify).value;
      ApplyAllParsed(doc, rs, OwnValues(rs), parse) == Ok(doc)
  {
    var rs := ExtractFields(doc, schema, "", stringify).value;
    ExtractedRecordsAddressed(doc, schema, stringify);
    ApplyOwnValuesParsed(doc, rs, OwnValues(rs), stringify, parse);
  }
}
