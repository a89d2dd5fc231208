/**
 * The rich-text helpers of the extractor: the pre-order collection of text
 * nodes of an editor state (`extractLexicalTexts` and its `traverse`
 * closure) and the "has visible text" test (`hasLexicalContent`).
 */
module Lexical {
  import opened Wrappers
  import opened Strings
  import opened Json

  /** The node is a text node with a truthy `text`: `node.type === 'text' && node.text`. */
  predicate IsTextNode(node: Value) {
    Lookup(node, "type") == Some(Str("text")) && TruthyOpt(Lookup(node, "text"))
  }

  /** What `traverse` pushes for the node itself, before its children. */
  function OwnText(node: Value): (r: seq<Value>)
    ensures |r| <= 1
    ensures r != [] <==> IsTextNode(node)
    ensures r != [] ==> Truthy(r[0]) && Some(r[0]) == Lookup(node, "text")
  {
    if IsTextNode(node) then [Lookup(node, "text").value] else []
  }

  /**
   * The texts `traverse(node)` pushes, in order, or the TypeError it throws:
   * reading `type` of a `null` node, or iterating a truthy `children` that is
   * not iterable. A string `children` is iterable, but its one-character
   * strings have neither `type` nor `children`, so it contributes nothing.
   */
  function Collect(node: Value): Result<seq<Value>>
    decreases node
  {
    if node.Null? then TypeError
    else
      match Lookup(node, "children")
      case None => Ok(OwnText(node))
      case Some(c) =>
        if !Truthy(c) then Ok(OwnText(node))
        else if c.Arr? then Concat(Ok(OwnText(node)), CollectAll(c.elems))
        else if c.Str? then Ok(OwnText(node))
        else TypeError
  }

  /** `traverse` over the children, left to right. */
  function CollectAll(nodes: seq<Value>): Result<seq<Value>>
    decreases nodes
  {
    if nodes == [] then Ok([])
    else Concat(CollectAll(nodes[..|nodes| - 1]), Collect(nodes[|nodes| - 1]))
  }

  /** A throw in one child aborts the walk of every longer run of children. */
  lemma {:induction false} CollectAllThrows(nodes: seq<Value>, i: nat)
    requires i <= |nodes| && CollectAll(nodes[..i]).TypeError?
    ensures CollectAll(nodes).TypeError?
    decreases |nodes|
  {
    if i < |nodes| {
      var p := nodes[..|nodes| - 1];
      assert p[..i] == nodes[..i];
      CollectAllThrows(p, i);
    } else {
      assert nodes[..i] == nodes;
    }
  }

  /**
   * The `traverse` closure: walks `node` in pre-order, children left to
   * right, pushing onto the caller's `texts`. Its result is the caller's
   * texts followed by `Collect(node)`.
   */
  method Traverse(node: Value, texts: seq<Value>) returns (r: Result<seq<Value>>)
    ensures r == Concat(Ok(texts), Collect(node))
    decreases node
  {
    if node.Null? {
      return TypeError;
    }
    var acc := texts;
    if Lookup(node, "type") == Some(Str("text")) && TruthyOpt(Lookup(node, "text")) {
      acc := acc + [Lookup(node, "text").value];
    }
    assert acc == texts + OwnText(node);
    var children := Lookup(node, "children");
    if children.None? || !Truthy(children.value) || children.value.Str? {
      return Ok(acc);
    }
    if !children.value.Arr? {
      return TypeError;
    }
    var kids := children.value.elems;
    var start := acc;
    var i := 0;
    assert kids[..0] == [] && start + [] == start;
    while i < |kids|
      invariant 0 <= i <= |kids|
      invariant Concat(Ok(start), CollectAll(kids[..i])) == Ok(acc)
    {
      var next := Traverse(kids[i], acc);
      if next.TypeError? {
        assert kids[..i + 1][..i] == kids[..i];
        CollectAllThrows(kids, i + 1);
        return TypeError;
      }
      assert kids[..i + 1][..i] == kids[..i];
      ConcatAssoc(Ok(start), CollectAll(kids[..i]), Collect(kids[i]));
      acc := next.value;
      i := i + 1;
    }
    assert kids[..i] == kids;
    ConcatAssoc(Ok(texts), Ok(OwnText(node)), CollectAll(kids));
    return Ok(acc);
  }

  /**
   * `extractLexicalTexts(editorState)`: `[]` unless the state is an object
   * whose `root` has a truthy `children`; otherwise the texts `traverse`
   * collects from the root.
   */
  function LexicalTexts(state: Value): Result<seq<Value>> {
    if !Truthy(state) || !IsObject(state) then Ok([])
    else
      match Lookup(state, "root")
      case None => Ok([])
      case Some(root) =>
        if !TruthyOpt(Lookup(root, "children")) then Ok([])
        else Collect(root)
  }

  /** `extractLexicalTexts` with its `traverse` closure, pushing into a fresh array. */
  method ExtractLexicalTexts(state: Value) returns (r: Result<seq<Value>>)
    ensures r == LexicalTexts(state)
  {
    if !Truthy(state) || !IsObject(state) {
      return Ok([]);
    }
    var root := Lookup(state, "root");
    if root.None? || !TruthyOpt(Lookup(root.value, "children")) {
      return Ok([]);
    }
    r := Traverse(root.value, []);
    assert Collect(root.value).Ok? ==> [] + Collect(root.value).value == Collect(root.value).value;
  }

  /**
   * `texts.some(text => text.trim().length > 0)`: stops at the first text
   * with visible characters; calling `trim` on a non-string before that throws.
   */
  function SomeVisible(texts: seq<Value>): Result<bool> {
    if texts == [] then Ok(false)
    else if !texts[0].Str? then TypeError
    else if |Trim(texts[0].s)| > 0 then Ok(true)
    else SomeVisible(texts[1..])
  }

  /** The text at `k` is a visible string and every text before it is a string. */
  predicate VisibleAt(texts: seq<Value>, k: int) {
    0 <= k < |texts| && texts[k].Str? && !Blank(texts[k].s)
    && forall j :: 0 <= j < k ==> texts[j].Str?
  }

  lemma VisibleAtTail(texts: seq<Value>, k: nat)
    requires texts != [] && texts[0].Str?
    ensures VisibleAt(texts, k + 1) <==> VisibleAt(texts[1..], k)
  {
    if VisibleAt(texts[1..], k) {
      forall j | 0 <= j < k + 1 ensures texts[j].Str? {
        if j > 0 { assert texts[j] == texts[1..][j - 1]; }
      }
    }
    if VisibleAt(texts, k + 1) {
      assert texts[1..][k] == texts[k + 1];
      forall j | 0 <= j < k ensures texts[1..][j].Str? {
        assert texts[1..][j] == texts[j + 1];
      }
    }
  }

  /**
   * `some` answers true exactly when a string with visible characters comes
   * before any non-string.
   */
  lemma {:induction false} SomeVisibleTrue(texts: seq<Value>)
    ensures SomeVisible(texts) == Ok(true) <==> exists k :: VisibleAt(texts, k)
  {
    if texts != [] && texts[0].Str? {
      TrimEmptyIffBlank(texts[0].s);
      if |Trim(texts[0].s)| == 0 {
        var tail := texts[1..];
        SomeVisibleTrue(tail);
        if SomeVisible(tail) == Ok(true) {
          var k :| VisibleAt(tail, k);
          VisibleAtTail(texts, k);
        }
        if exists k :: VisibleAt(texts, k) {
          var k :| VisibleAt(texts, k);
          assert k > 0;
          VisibleAtTail(texts, k - 1);
        }
      } else {
        assert VisibleAt(texts, 0);
      }
    }
  }

  /** `some` answers false exactly when every text is a blank string. */
  lemma {:induction false} SomeVisibleFalse(texts: seq<Value>)
    ensures SomeVisible(texts) == Ok(false) <==>
      forall j :: 0 <= j < |texts| ==> texts[j].Str? && Blank(texts[j].s)
  {
    if texts != [] && texts[0].Str? {
      TrimEmptyIffBlank(texts[0].s);
      if |Trim(texts[0].s)| == 0 {
        SomeVisibleFalse(texts[1..]);
        assert forall j :: 1 <= j < |texts| ==> texts[j] == texts[1..][j - 1];
      }
    }
  }

  /** `hasLexicalContent(editorState)`. */
  function HasLexicalContent(state: Value): Result<bool> {
    match LexicalTexts(state)
    case TypeError => TypeError
    case Ok(texts) => SomeVisible(texts)
  }

  // ---------------------------------------------------------------------
  // A reference definition: the pre-order list of visited nodes
  // ---------------------------------------------------------------------

  /** Every node `traverse` visits, in the order it visits them. */
  function PreOrder(node: Value): seq<Value>
    decreases node
  {
    match Lookup(node, "children")
    case Some(Arr(kids)) => [node] + PreOrderAll(kids)
    case _ => [node]
  }

  function PreOrderAll(nodes: seq<Value>): seq<Value>
    decreases nodes
  {
    if nodes == [] then []
    else PreOrderAll(nodes[..|nodes| - 1]) + PreOrder(nodes[|nodes| - 1])
  }

  /** The `text` of every text node among `nodes`, in order. */
  function TextsOf(nodes: seq<Value>): seq<Value> {
    if nodes == [] then []
    else TextsOf(nodes[..|nodes| - 1]) + OwnText(nodes[|nodes| - 1])
  }

  lemma {:induction false} TextsOfAppend(a: seq<Value>, b: seq<Value>)
    ensures TextsOf(a + b) == TextsOf(a) + TextsOf(b)
    decreases |b|
  {
    if b == [] {
      assert a + b == a;
    } else {
      var b' := b[..|b| - 1];
      assert (a + b)[..|a + b| - 1] == a + b';
      TextsOfAppend(a, b');
    }
  }

  /**
   * When the walk does not throw, it collects exactly the `text` of the text
   * nodes among the visited nodes, in pre-order, children left to right.
   */
  lemma {:induction false} CollectIsPreOrder(node: Value)
    requires Collect(node).Ok?
    ensures Collect(node).value == TextsOf(PreOrder(node))
    decreases node
  {
    assert TextsOf([node]) == OwnText(node) by {
      assert [node][..0] == [];
    }
    match Lookup(node, "children")
    case None =>
    case Some(c) =>
      if c.Arr? {
        CollectAllIsPreOrder(c.elems);
        TextsOfAppend([node], PreOrderAll(c.elems));
      }
  }

  lemma {:induction false} CollectAllIsPreOrder(nodes: seq<Value>)
    requires CollectAll(nodes).Ok?
    ensures CollectAll(nodes).value == TextsOf(PreOrderAll(nodes))
    decreases nodes
  {
    if nodes != [] {
      var p := nodes[..|nodes| - 1];
      var last := nodes[|nodes| - 1];
      CollectAllIsPreOrder(p);
      CollectIsPreOrder(last);
      TextsOfAppend(PreOrderAll(p), PreOrder(last));
    }
  }

  /** Everything collected is truthy: empty strings and missing texts are never pushed. */
  lemma {:induction false} CollectTruthy(node: Value)
    requires Collect(node).Ok?
    ensures forall t :: t in Collect(node).value ==> Truthy(t)
    decreases node
  {
    match Lookup(node, "children")
    case None =>
    case Some(c) =>
      if c.Arr? {
        CollectAllTruthy(c.elems);
      }
  }

  lemma {:induction false} CollectAllTruthy(nodes: seq<Value>)
    requires CollectAll(nodes).Ok?
    ensures forall t :: t in CollectAll(nodes).value ==> Truthy(t)
    decreases nodes
  {
    if nodes != [] {
      CollectAllTruthy(nodes[..|nodes| - 1]);
      CollectTruthy(nodes[|nodes| - 1]);
    }
  }

  /** `hasLexicalContent` is true only when `extractLexicalTexts` found something. */
  lemma HasContentNonEmpty(state: Value)
    requires HasLexicalContent(state) == Ok(true)
    ensures LexicalTexts(state).Ok? && |LexicalTexts(state).value| > 0
  {
  }
}
