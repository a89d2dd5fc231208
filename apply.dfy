/**
 * The reinsertion side: `applyTranslations` writes the i-th translation at
 * the i-th record's path in a copy of the document, through the
 * auto-vivifying `setNestedValue`, or, for a rich-text record that carries a
 * `lexicalPath`, through `applyLexicalTranslation`, which patches the `text`
 * of one node. Documents are values: a write through a reference into the
 * tree is the same tree with that one key replaced, all the way up.
 */
module Apply {
  import opened Wrappers
  import opened Strings
  import opened Json
  import opened Schema

  // ---------------------------------------------------------------------
  // Reading and writing at a path
  // ---------------------------------------------------------------------

  /** The container `setNestedValue` creates for a missing key: `isNaN(Number(nextKey)) ? {} : []`. */
  function Container(nextKey: string): (c: Value)
    ensures c == Arr([]) || c == Obj(map[])
    ensures c.Arr? <==> NumericKey(nextKey)
  {
    if NumericKey(nextKey) then Arr([]) else Obj(map[])
  }

  /**
   * The document after `setNestedValue(v, keys.join('.'), x)`, or the
   * TypeError it throws: every step but the last reuses the value under the
   * key when there is one and creates a container otherwise; the last step
   * assigns `x`. Testing `key in` a primitive throws, and so does assigning
   * a property of a primitive (module code is strict).
   */
  function SetPath(v: Value, keys: seq<string>, x: Value): Result<Value>
    requires |keys| >= 1
    decreases |keys|
  {
    if !IsObject(v) then TypeError
    else if |keys| == 1 then Ok(Put(v, keys[0], x))
    else
      var child := if Has(v, keys[0]) then Lookup(v, keys[0]).value else Container(keys[1]);
      match SetPath(child, keys[1..], x)
      case TypeError => TypeError
      case Ok(c) => Ok(Put(v, keys[0], c))
  }

  /**
   * The document after overwriting the value at an existing path with `x`:
   * an assignment through a reference that reading `keys` reached.
   */
  function ReplaceAt(v: Value, keys: seq<string>, x: Value): Value
    requires GetPath(v, keys).Some?
    decreases |keys|
  {
    if keys == [] then x
    else Put(v, keys[0], ReplaceAt(Lookup(v, keys[0]).value, keys[1..], x))
  }

  /** Reading `a + b` is reading `a`, then reading `b` from there. */
  lemma {:induction false} GetPathAppend(v: Value, a: seq<string>, b: seq<string>)
    ensures GetPath(v, a + b) ==
      match GetPath(v, a)
      case None => None
      case Some(w) => GetPath(w, b)
    decreases |a|
  {
    if a == [] {
      assert a + b == b;
    } else if IsObject(v) && Has(v, a[0]) {
      assert (a + b)[1..] == a[1..] + b;
      GetPathAppend(Lookup(v, a[0]).value, a[1..], b);
    }
  }

  /** One level of the document on the way down, as `setNestedValue` passes it: the parent and the key taken. */
  datatype Frame = Frame(parent: Value, key: string)

  predicate ObjectFrames(frames: seq<Frame>) {
    forall j :: 0 <= j < |frames| ==> IsObject(frames[j].parent)
  }

  /**
   * The root that holds `node` after it was changed in place at the bottom
   * of `frames`: each parent, innermost first, with its key now holding the
   * changed child.
   */
  function Plug(frames: seq<Frame>, node: Value): Value
    requires ObjectFrames(frames)
  {
    if frames == [] then node
    else
      var f := frames[|frames| - 1];
      Plug(frames[..|frames| - 1], Put(f.parent, f.key, node))
  }

  function PlugResult(frames: seq<Frame>, r: Result<Value>): Result<Value>
    requires ObjectFrames(frames)
  {
    match r
    case TypeError => TypeError
    case Ok(node) => Ok(Plug(frames, node))
  }

  /**
   * One step down in `setNestedValue`: the answer for the remaining keys
   * under the current frames is the answer for the keys after the first,
   * under one more frame.
   */
  lemma DescendStep(frames: seq<Frame>, current: Value, keys: seq<string>, x: Value)
    requires ObjectFrames(frames) && IsObject(current) && |keys| >= 2
    ensures ObjectFrames(frames + [Frame(current, keys[0])])
    ensures var next := if Has(current, keys[0]) then Lookup(current, keys[0]).value else Container(keys[1]);
      PlugResult(frames + [Frame(current, keys[0])], SetPath(next, keys[1..], x)) == PlugResult(frames, SetPath(current, keys, x))
  {
    var extended := frames + [Frame(current, keys[0])];
    assert extended[..|frames|] == frames;
  }

  /** The last key of `setNestedValue`: the write itself, carried up through the frames. */
  lemma LastStep(frames: seq<Frame>, current: Value, keys: seq<string>, x: Value)
    requires ObjectFrames(frames) && IsObject(current) && |keys| == 1
    ensures PlugResult(frames, SetPath(current, keys, x)) == Ok(Plug(frames, Put(current, keys[0], x)))
  {
  }

  /**
   * `getNestedValue(obj, path)`: walks `current` down the dot-separated keys
   * while it is an object holding the key; `undefined` as soon as it is not.
   */
  method GetNestedValue(obj: Value, path: string) returns (r: Option<Value>)
    ensures r == GetPath(obj, Split(path))
  {
    var keys := Split(path);
    var current := obj;
    var i := 0;
    while i < |keys|
      invariant 0 <= i <= |keys|
      invariant GetPath(current, keys[i..]) == GetPath(obj, keys)
    {
      var key := keys[i];
      assert keys[i..][1..] == keys[i + 1..];
      if IsObject(current) && Has(current, key) {
        current := Lookup(current, key).value;
      } else {
        return None;
      }
      i := i + 1;
    }
    return Some(current);
  }

  /**
   * `setNestedValue(obj, path, value)`: walks `current` down all keys but
   * the last, creating a container wherever a key is missing, then assigns
   * the last key. The parents passed on the way are kept as frames, and the
   * assignment is carried back up through them to the root.
   */
  method SetNestedValue(obj: Value, path: string, value: Value) returns (r: Result<Value>)
    ensures r == SetPath(obj, Split(path), value)
  {
    var keys := Split(path);
    var current := obj;
    var frames: seq<Frame> := [];
    // `rest` is `keys.slice(i)` for the source's loop index `i`
    var rest := keys;
    while |rest| > 1
      invariant |rest| >= 1
      invariant ObjectFrames(frames)
      invariant PlugResult(frames, SetPath(current, rest, value)) == SetPath(obj, keys, value)
    {
      var key := rest[0];
      var nextKey := rest[1];
      if !IsObject(current) {
        // `key in current` on a primitive
        return TypeError;
      }
      var next := if Has(current, key) then Lookup(current, key).value else Container(nextKey);
      DescendStep(frames, current, rest, value);
      frames := frames + [Frame(current, key)];
      current := next;
      rest := rest[1..];
    }
    if !IsObject(current) {
      // assigning a property of a primitive
      return TypeError;
    }
    LastStep(frames, current, rest, value);
    var node := Rebuild(frames, Put(current, rest[0], value));
    return Ok(node);
  }

  /**
   * The assignments of `setNestedValue` happen in place; on values, the
   * written child is put back into each parent on the way up.
   */
  method Rebuild(frames: seq<Frame>, node: Value) returns (v: Value)
    requires ObjectFrames(frames)
    ensures v == Plug(frames, node)
  {
    var rest := frames;
    v := node;
    while |rest| > 0
      invariant ObjectFrames(rest)
      invariant Plug(rest, v) == Plug(frames, node)
    {
      var f := rest[|rest| - 1];
      v := Put(f.parent, f.key, v);
      rest := rest[..|rest| - 1];
    }
  }

  // ---------------------------------------------------------------------
  // The rich-text branch
  // ---------------------------------------------------------------------

  /**
   * The address of the `text` key `applyLexicalTranslation` overwrites: the
   * value at `fieldPath` must be an object, every segment of `lexicalPath`
   * must be found from it, and the node reached must be an object with a
   * `text` key. `None` when any of these fails.
   */
  function LexicalTarget(doc: Value, fieldPath: string, lexicalPath: string): (r: Option<seq<string>>)
    ensures r.Some? ==> r.value == Split(fieldPath) + Split(lexicalPath) + ["text"]
    ensures r.Some? ==> GetPath(doc, r.value).Some?
  {
    match GetPath(doc, Split(fieldPath))
    case None => None
    case Some(state) =>
      if !IsObject(state) then None
      else
        match GetPath(state, Split(lexicalPath))
        case None => None
        case Some(node) =>
          if IsObject(node) && Has(node, "text") then
            GetPathAppend(doc, Split(fieldPath), Split(lexicalPath));
            GetPathAppend(doc, Split(fieldPath) + Split(lexicalPath), ["text"]);
            assert GetPath(node, ["text"]) == Lookup(node, "text") by {
              assert ["text"][1..] == [];
            }
            Some(Split(fieldPath) + Split(lexicalPath) + ["text"])
          else None
  }

  /** The document after `applyLexicalTranslation(doc, fieldPath, lexicalPath, translation)`. */
  function ApplyLexical(doc: Value, fieldPath: string, lexicalPath: string, translation: string): Value {
    match LexicalTarget(doc, fieldPath, lexicalPath)
    case None => doc
    case Some(keys) => ReplaceAt(doc, keys, Str(translation))
  }

  /**
   * `applyLexicalTranslation`: reads the rich-text value, walks `current`
   * down the segments of `lexicalPath`, giving up when one is missing, and
   * sets `text` on the node it reaches.
   */
  method ApplyLexicalTranslation(data: Value, fieldPath: string, lexicalPath: string, translation: string)
    returns (r: Value)
    ensures r == ApplyLexical(data, fieldPath, lexicalPath, translation)
  {
    var lexicalState := GetNestedValue(data, fieldPath);
    if lexicalState.None? || !Truthy(lexicalState.value) || !IsObject(lexicalState.value) {
      return data;
    }
    var state := lexicalState.value;
    var pathParts := Split(lexicalPath);
    var current := state;
    var i := 0;
    assert pathParts[..0] == [];
    while i < |pathParts|
      invariant 0 <= i <= |pathParts|
      invariant GetPath(state, pathParts[..i]) == Some(current)
    {
      var key := pathParts[i];
      assert pathParts[..i + 1] == pathParts[..i] + [key];
      GetPathSnoc(state, pathParts[..i], key);
      if IsObject(current) && Has(current, key) {
        // the self-assignment `current[key] = current[key]` changes nothing
        assert Put(current, key, Lookup(current, key).value) == current by {
          PutSame(current, key);
        }
        current := Lookup(current, key).value;
      } else {
        GetPathAppend(state, pathParts[..i + 1], pathParts[i + 1..]);
        assert pathParts[..i + 1] + pathParts[i + 1..] == pathParts;
        return data;
      }
      i := i + 1;
    }
    assert pathParts[..i] == pathParts;
    if IsObject(current) && Has(current, "text") {
      assert LexicalTarget(data, fieldPath, lexicalPath) == Some(Split(fieldPath) + pathParts + ["text"]);
      r := ReplaceAt(data, Split(fieldPath) + pathParts + ["text"], Str(translation));
    } else {
      r := data;
    }
  }

  // ---------------------------------------------------------------------
  // applyTranslations
  // ---------------------------------------------------------------------

  /** The rich-text branch is taken: a rich-text record with a truthy `lexicalPath`. */
  predicate UsesLexicalBranch(f: TranslatableField) {
    f.kind == RichTextKind && f.lexicalPath.LexicalAt? && f.lexicalPath.at != ""
  }

  /** Writing one translation for one record. */
  function ApplyOne(doc: Value, f: TranslatableField, translation: string): Result<Value> {
    if UsesLexicalBranch(f) then Ok(ApplyLexical(doc, f.path, f.lexicalPath.at, translation))
    else SetPath(doc, Split(f.path), Str(translation))
  }

  /**
   * The document after the `forEach` over `fields`, record by record; a
   * record without a translation at its index (`translations[index] ===
   * undefined`) is skipped, and a throw aborts.
   */
  function ApplyAll(doc: Value, fields: seq<TranslatableField>, translations: seq<string>): Result<Value>
    decreases |fields|
  {
    if fields == [] then Ok(doc)
    else
      var k := |fields| - 1;
      match ApplyAll(doc, fields[..k], translations)
      case TypeError => TypeError
      case Ok(d) => if k < |translations| then ApplyOne(d, fields[k], translations[k]) else Ok(d)
  }

  lemma {:induction false} ApplyThrows(doc: Value, fields: seq<TranslatableField>, translations: seq<string>, i: nat)
    requires i <= |fields| && ApplyAll(doc, fields[..i], translations).TypeError?
    ensures ApplyAll(doc, fields, translations).TypeError?
    decreases |fields|
  {
    if i < |fields| {
      assert fields[..|fields| - 1][..i] == fields[..i];
      ApplyThrows(doc, fields[..|fields| - 1], translations, i);
    } else {
      assert fields[..i] == fields;
    }
  }

  /**
   * `applyTranslations(originalData, fields, translations)`: the deep copy
   * (a value is its own copy), then one write per record with a translation.
   */
  method ApplyTranslations(originalData: Value, fields: seq<TranslatableField>, translations: seq<string>)
    returns (r: Result<Value>)
    ensures r == ApplyAll(originalData, fields, translations)
  {
    var result := originalData;
    var index := 0;
    while index < |fields|
      invariant 0 <= index <= |fields|
      invariant ApplyAll(originalData, fields[..index], translations) == Ok(result)
    {
      var field := fields[index];
      assert fields[..index + 1][..index] == fields[..index];
      if index < |translations| {
        var translation := translations[index];
        if field.kind == RichTextKind && field.lexicalPath.LexicalAt? && field.lexicalPath.at != "" {
          result := ApplyLexicalTranslation(result, field.path, field.lexicalPath.at, translation);
        } else {
          var written := SetNestedValue(result, field.path, Str(translation));
          if written.TypeError? {
            ApplyThrows(originalData, fields, translations, index + 1);
            return TypeError;
          }
          result := written.value;
        }
      }
      index := index + 1;
    }
    assert fields[..index] == fields;
    return Ok(result);
  }
}
