/**
 * What the reinsertion promises: a write can be read back, touches nothing
 * beside its own path, writes back what is there without change, creates
 * arrays for numeric segments and objects otherwise; the rich-text branch
 * patches one `text`; translations are matched to records by index only.
 */
module ApplyProperties {
  import opened Wrappers
  import opened Strings
  import opened Json
  import opened Schema
  import opened Apply

  // ---------------------------------------------------------------------
  // setNestedValue
  // ---------------------------------------------------------------------

  /**
   * Every step of the write lands in the JSON value: each parent on the way
   * is an object, or an array and the key is one of its indices. (A
   * non-index key of an array names a property that is not part of the
   * value, so a write under it is lost.)
   */
  predicate Lands(v: Value, keys: seq<string>)
    requires |keys| >= 1
    decreases |keys|
  {
    IsObject(v) && (v.Obj? || IsIndexKey(keys[0]))
    && (|keys| == 1
        || Lands(if Has(v, keys[0]) then Lookup(v, keys[0]).value else Container(keys[1]), keys[1..]))
  }

  /** A write that lands succeeds, and reading the path back gives the value written. */
  lemma {:induction false} SetPathReadBack(v: Value, keys: seq<string>, x: Value)
    requires |keys| >= 1 && Lands(v, keys)
    ensures SetPath(v, keys, x).Ok?
    ensures GetPath(SetPath(v, keys, x).value, keys) == Some(x)
    decreases |keys|
  {
    var k := keys[0];
    if |keys| == 1 {
      assert keys[1..] == [];
    } else {
      var child := if Has(v, k) then Lookup(v, k).value else Container(keys[1]);
      SetPathReadBack(child, keys[1..], x);
    }
  }

  /**
   * A write leaves every other path of the document as it was: a path that
   * already existed and parts from the written one at segment `j` reads the
   * same value afterwards, so intermediate containers that existed are
   * reused, with all their other keys.
   */
  lemma {:induction false} SetPathFrame(v: Value, keys: seq<string>, x: Value, other: seq<string>, j: nat)
    requires |keys| >= 1 && SetPath(v, keys, x).Ok?
    requires j < |keys| && j < |other| && keys[..j] == other[..j] && keys[j] != other[j]
    requires GetPath(v, other).Some?
    ensures GetPath(SetPath(v, keys, x).value, other) == GetPath(v, other)
    decreases j
  {
    var k := keys[0];
    var r := SetPath(v, keys, x).value;
    if j == 0 {
      var c := if |keys| == 1 then x else SetPath(if Has(v, k) then Lookup(v, k).value else Container(keys[1]), keys[1..], x).value;
      assert r == Put(v, k, c);
      PutOther(v, k, c, other[0]);
    } else {
      assert other[0] == k by {
        assert keys[..j][0] == other[..j][0];
      }
      var child := Lookup(v, k).value;
      assert keys[1..][..j - 1] == other[1..][..j - 1];
      SetPathFrame(child, keys[1..], x, other[1..], j - 1);
    }
  }

  /** Writing at an existing path is overwriting that one value in place. */
  lemma {:induction false} SetPathExisting(v: Value, keys: seq<string>, x: Value)
    requires |keys| >= 1 && GetPath(v, keys).Some?
    ensures SetPath(v, keys, x) == Ok(ReplaceAt(v, keys, x))
    decreases |keys|
  {
    if |keys| > 1 {
      SetPathExisting(Lookup(v, keys[0]).value, keys[1..], x);
    }
  }

  /** Overwriting a value with itself changes nothing. */
  lemma {:induction false} ReplaceAtSame(v: Value, keys: seq<string>)
    requires GetPath(v, keys).Some?
    ensures ReplaceAt(v, keys, GetPath(v, keys).value) == v
    decreases |keys|
  {
    if keys != [] {
      ReplaceAtSame(Lookup(v, keys[0]).value, keys[1..]);
      PutSame(v, keys[0]);
    }
  }

  /** Writing back the value a path already holds returns the document unchanged. */
  lemma SetPathSame(v: Value, keys: seq<string>, x: Value)
    requires |keys| >= 1 && GetPath(v, keys) == Some(x)
    ensures SetPath(v, keys, x) == Ok(v)
  {
    SetPathExisting(v, keys, x);
    ReplaceAtSame(v, keys);
  }

  /** After overwriting an existing path, it reads the new value. */
  lemma {:induction false} ReplaceAtRead(v: Value, keys: seq<string>, x: Value)
    requires GetPath(v, keys).Some?
    ensures GetPath(ReplaceAt(v, keys, x), keys) == Some(x)
    decreases |keys|
  {
    if keys != [] {
      ReplaceAtRead(Lookup(v, keys[0]).value, keys[1..], x);
    }
  }

  /** Overwriting an existing path leaves every path that parts from it at segment `j` as it was. */
  lemma {:induction false} ReplaceAtFrame(v: Value, keys: seq<string>, x: Value, other: seq<string>, j: nat)
    requires GetPath(v, keys).Some? && GetPath(v, other).Some?
    requires j < |keys| && j < |other| && keys[..j] == other[..j] && keys[j] != other[j]
    ensures GetPath(ReplaceAt(v, keys, x), other) == GetPath(v, other)
    decreases j
  {
    var k := keys[0];
    var c := ReplaceAt(Lookup(v, k).value, keys[1..], x);
    if j == 0 {
      PutOther(v, k, c, other[0]);
    } else {
      assert other[0] == k by {
        assert keys[..j][0] == other[..j][0];
      }
      assert keys[1..][..j - 1] == other[1..][..j - 1];
      ReplaceAtFrame(Lookup(v, k).value, keys[1..], x, other[1..], j - 1);
    }
  }

  /**
   * A missing intermediate key of an object gets a fresh container: an
   * array when the next segment is numeric, an object otherwise.
   */
  lemma SetPathCreates(v: Value, keys: seq<string>, x: Value)
    requires |keys| >= 2 && v.Obj? && !Has(v, keys[0])
    requires SetPath(v, keys, x).Ok?
    ensures var c := Lookup(SetPath(v, keys, x).value, keys[0]);
      c.Some? && (c.value.Arr? <==> NumericKey(keys[1])) && (c.value.Obj? <==> !NumericKey(keys[1]))
  {
  }

  // ---------------------------------------------------------------------
  // applyLexicalTranslation
  // ---------------------------------------------------------------------

  /**
   * The rich-text branch changes nothing when the rich-text value is not an
   * object, a segment of `lexicalPath` is missing, or the node reached has no
   * `text`; otherwise the node's `text` reads the translation afterwards.
   */
  lemma ApplyLexicalEffect(doc: Value, fieldPath: string, lexicalPath: string, translation: string)
    ensures var state := GetPath(doc, Split(fieldPath));
      state.None? || !IsObject(state.value) ==> ApplyLexical(doc, fieldPath, lexicalPath, translation) == doc
    ensures var state := GetPath(doc, Split(fieldPath));
      state.Some? && IsObject(state.value) && GetPath(state.value, Split(lexicalPath)).None? ==>
        ApplyLexical(doc, fieldPath, lexicalPath, translation) == doc
    ensures var state := GetPath(doc, Split(fieldPath));
      var node := if state.Some? then GetPath(state.value, Split(lexicalPath)) else None;
      state.Some? && IsObject(state.value) && node.Some? && !(IsObject(node.value) && Has(node.value, "text")) ==>
        ApplyLexical(doc, fieldPath, lexicalPath, translation) == doc
    ensures var state := GetPath(doc, Split(fieldPath));
      var node := if state.Some? then GetPath(state.value, Split(lexicalPath)) else None;
      state.Some? && IsObject(state.value) && node.Some? && IsObject(node.value) && Has(node.value, "text") ==>
        GetPath(ApplyLexical(doc, fieldPath, lexicalPath, translation), Split(fieldPath) + Split(lexicalPath) + ["text"])
          == Some(Str(translation))
  {
    var target := LexicalTarget(doc, fieldPath, lexicalPath);
    if target.Some? {
      ReplaceAtRead(doc, target.value, Str(translation));
    }
  }

  /** The rich-text branch changes no path other than the node's `text`. */
  lemma ApplyLexicalFrame(doc: Value, fieldPath: string, lexicalPath: string, translation: string, other: seq<string>, j: nat)
    requires GetPath(doc, other).Some?
    requires var keys := Split(fieldPath) + Split(lexicalPath) + ["text"];
      j < |keys| && j < |other| && keys[..j] == other[..j] && keys[j] != other[j]
    ensures GetPath(ApplyLexical(doc, fieldPath, lexicalPath, translation), other) == GetPath(doc, other)
  {
    var target := LexicalTarget(doc, fieldPath, lexicalPath);
    if target.Some? {
      ReplaceAtFrame(doc, target.value, Str(translation), other, j);
    }
  }

  // ---------------------------------------------------------------------
  // applyTranslations
  // ---------------------------------------------------------------------

  /** Translations beyond the last record are ignored. */
  lemma {:induction false} SurplusTranslationsIgnored(doc: Value, fields: seq<TranslatableField>, translations: seq<string>, extra: seq<string>)
    requires |translations| >= |fields|
    ensures ApplyAll(doc, fields, translations + extra) == ApplyAll(doc, fields, translations)
    decreases |fields|
  {
    if fields != [] {
      var k := |fields| - 1;
      SurplusTranslationsIgnored(doc, fields[..k], translations, extra);
      assert (translations + extra)[k] == translations[k];
    }
  }

  /**
   * Records without a translation are skipped: with `n` translations, only
   * the first `n` records are written, and the later ones keep the values
   * of the copied document.
   */
  lemma {:induction false} MissingTranslationsSkipped(doc: Value, fields: seq<TranslatableField>, translations: seq<string>)
    requires |translations| <= |fields|
    ensures ApplyAll(doc, fields, translations) == ApplyAll(doc, fields[..|translations|], translations)
    decreases |fields|
  {
    if |translations| < |fields| {
      var k := |fields| - 1;
      assert fields[..k][..|translations|] == fields[..|translations|];
      MissingTranslationsSkipped(doc, fields[..k], translations);
    } else {
      assert fields[..|translations|] == fields;
    }
  }

  /**
   * The last record written wins: after a record that takes the
   * `setNestedValue` branch and whose write lands, its path reads its
   * translation, whatever earlier records wrote there.
   */
  lemma LastWriteWins(doc: Value, fields: seq<TranslatableField>, f: TranslatableField, translations: seq<string>)
    requires |fields| < |translations| && !UsesLexicalBranch(f)
    requires ApplyAll(doc, fields, translations).Ok?
    requires Lands(ApplyAll(doc, fields, translations).value, Split(f.path))
    ensures ApplyAll(doc, fields + [f], translations).Ok?
    ensures GetPath(ApplyAll(doc, fields + [f], translations).value, Split(f.path)) == Some(Str(translations[|fields|]))
  {
    assert (fields + [f])[..|fields|] == fields;
    SetPathReadBack(ApplyAll(doc, fields, translations).value, Split(f.path), Str(translations[|fields|]));
  }
}
