// The edits the server makes without ProseMirror: the new document and the
// replace step that peers replay must come to the same thing.
module Edits {
  import opened Wrappers
  import opened Utf16
  import opened Tree
  import opened Inline
  import Text
  import Seqs

  datatype Step = ReplaceStep(from: int, to: int, slice: seq<Node>)

  // A document is the content of its root; the root's own attributes never change.
  datatype Edit = Edit(content: seq<Node>, step: Step)

  // What a peer computes from a step: positions `from` to `to` give way to
  // the tokens of the slice.
  function Replay(tokens: seq<Token>, step: Step): seq<Token>
    requires 0 <= step.from <= step.to <= |tokens|
  {
    tokens[..step.from] + Tokens(step.slice) + tokens[step.to..]
  }

  // ----- nodes made from a model's text -----

  function TextNode(text: string): Node {
    Node.Text(text, [])
  }

  const LINE_BREAK: Node := Elem(HardBreak, map[], [], [])

  function LineNodes(lines: seq<string>, first: bool): seq<Node> {
    if lines == [] then [] else
      (if first then [] else [LINE_BREAK])
      + (if lines[0] == [] then [] else [TextNode(lines[0])])
      + LineNodes(lines[1..], false)
  }

  function InlineNodes(text: string, code: bool): seq<Node> {
    if code then (if text == [] then [] else [TextNode(text)])
    else LineNodes(Text.Lines([], text), true)
  }

  function ParagraphsOf(blocks: seq<string>): seq<Node> {
    if blocks == [] then [] else
      (if Text.Strip(blocks[0], Text.IsSpace) == [] then []
       else [Elem(Paragraph, map[], [], InlineNodes(Text.Strip(blocks[0], Text.Newline), false))])
      + ParagraphsOf(blocks[1..])
  }

  function Paragraphs(text: string): seq<Node> {
    ParagraphsOf(Text.Blocks([], Text.Strip(Text.Without(text, '\r'), Text.Newline)))
  }

  // ----- where a position lies -----

  function Spans(children: seq<Node>, pos: nat): (spans: seq<(nat, nat)>)
    ensures |spans| == |children|
  {
    if children == [] then [] else
      [(pos, pos + NodeSize(children[0]))] + Spans(children[1..], pos + NodeSize(children[0]))
  }

  method BlockSpans(children: seq<Node>) returns (spans: seq<(nat, nat)>)
    ensures spans == Spans(children, 0)
  {
    hide NodeSize;
    spans := [];
    var pos: nat := 0;
    for i := 0 to |children|
      invariant spans + Spans(children[i..], pos) == Spans(children, 0)
    {
      var size := NodeSize(children[i]);
      assert children[i..][1..] == children[i + 1..];
      Seqs.Assoc(spans, [(pos, pos + size)], Spans(children[i + 1..], pos + size));
      spans := spans + [(pos, pos + size)];
      pos := pos + size;
    }
  }

  predicate Holds(span: (nat, nat), pos: int, forward: bool) {
    span.0 < pos < span.1 || pos == if forward then span.0 else span.1
  }

  // The first span that holds `pos`.
  function BlockFrom(spans: seq<(nat, nat)>, pos: int, forward: bool, index: nat): (r: Option<nat>)
    requires index <= |spans|
    ensures r.Some? ==> index <= r.value < |spans| && Holds(spans[r.value], pos, forward)
    ensures r.Some? ==> forall k :: index <= k < r.value ==> !Holds(spans[k], pos, forward)
    ensures r.None? ==> forall k :: index <= k < |spans| ==> !Holds(spans[k], pos, forward)
    decreases |spans| - index
  {
    if index == |spans| then None
    else if Holds(spans[index], pos, forward) then Some(index)
    else BlockFrom(spans, pos, forward, index + 1)
  }

  function BlockAt(spans: seq<(nat, nat)>, pos: int, forward: bool): Option<nat> {
    BlockFrom(spans, pos, forward, 0)
  }

  datatype Found = Found(path: seq<nat>, start: int)

  // The outermost textblock whose content holds `pos`, with `children` starting
  // at `base`.
  function TextblockAt(children: seq<Node>, pos: int, base: int): (found: Option<Found>)
    ensures found.Some? ==> found.value.path != []
  {
    if children == [] then None else
      var child, size := children[0], NodeSize(children[0]);
      if base < pos < base + size then
        if IsTextblock(child) then Some(Found([0], base))
        else if child.Text? || IsLeafNode(child) then None
        else
          var inner := TextblockAt(child.content, pos, base + 1);
          if inner.None? then None else Some(Found([0] + inner.value.path, inner.value.start))
      else
        Later(TextblockAt(children[1..], pos, base + size))
  }

  // The same textblock, its path counted from one child earlier.
  function Later(found: Option<Found>): (r: Option<Found>)
    requires found.Some? ==> found.value.path != []
    ensures r.Some? <==> found.Some?
    ensures r.Some? ==> r.value.path != []
  {
    match found
    case None => None
    case Some(f) => Some(Found([f.path[0] + 1] + f.path[1..], f.start))
  }

  function LaterBy(found: Option<Found>, i: nat): (r: Option<Found>)
    requires found.Some? ==> found.value.path != []
  {
    match found
    case None => None
    case Some(f) => Some(Found([f.path[0] + i] + f.path[1..], f.start))
  }

  lemma LaterByNone(found: Option<Found>)
    requires found.Some? ==> found.value.path != []
    ensures LaterBy(found, 0) == found
  {
    if found.Some? {
      assert [found.value.path[0]] + found.value.path[1..] == found.value.path;
    }
  }

  method FindTextblock(children: seq<Node>, pos: int, base: int) returns (found: Option<Found>)
    ensures found == TextblockAt(children, pos, base)
    decreases children
  {
    hide NodeSize;
    var childPos := base;
    assert children[0..] == children;
    LaterByNone(TextblockAt(children, pos, base));
    for i := 0 to |children|
      invariant TextblockAt(children, pos, base) == LaterBy(TextblockAt(children[i..], pos, childPos), i)
    {
      var child := children[i];
      var size := NodeSize(child);
      assert children[i..][1..] == children[i + 1..];
      if childPos < pos < childPos + size {
        if IsTextblock(child) {
          assert [0 + i] + [0][1..] == [i];
          return Some(Found([i], childPos));
        }
        if IsLeafNode(child) || child.Text? {
          return None;
        }
        var inner := FindTextblock(child.content, pos, childPos + 1);
        return if inner.Some? then Some(Found([i] + inner.value.path, inner.value.start)) else None;
      }
      childPos := childPos + size;
    }
    return None;
  }

  // ----- paths -----

  predicate ValidPath(children: seq<Node>, path: seq<nat>)
    decreases |path|
  {
    && path != [] && path[0] < |children|
    && (|path| == 1
        || (children[path[0]].Elem? && !IsLeafKind(children[path[0]].kind)
            && ValidPath(children[path[0]].content, path[1..])))
  }

  function Get(children: seq<Node>, path: seq<nat>): Node
    requires ValidPath(children, path)
    decreases |path|
  {
    if |path| == 1 then children[path[0]] else Get(children[path[0]].content, path[1..])
  }

  function Put(children: seq<Node>, path: seq<nat>, replacement: Node): seq<Node>
    requires ValidPath(children, path)
    decreases |path|
  {
    var i := path[0];
    if |path| == 1 then children[i := replacement]
    else children[i := children[i].(content := Put(children[i].content, path[1..], replacement))]
  }

  // The position just before the node at `path`.
  function OffsetOf(children: seq<Node>, path: seq<nat>): nat
    requires ValidPath(children, path)
    decreases |path|
  {
    ContentSize(children[..path[0]])
    + if |path| == 1 then 0 else 1 + OffsetOf(children[path[0]].content, path[1..])
  }

  // ----- the edits -----

  function InlineText(nodes: seq<Node>): string {
    if nodes == [] then [] else
      (if nodes[0].Text? then nodes[0].text else "\n") + InlineText(nodes[1..])
  }

  // The model's words inside the whitespace the user selected around them.
  function Reworded(original: string, text: string, code: bool): string {
    var body := Text.Strip(text, Text.IsSpace);
    Text.Lead(original) + (if code then body else Text.Collapse(body)) + Text.Trail(original)
  }

  function Inserted(block: Node, low: int, high: int, text: string): seq<Node>
    requires block.Elem?
  {
    InlineNodes(Reworded(InlineText(Slice(block.content, low, Some(high))), text, block.kind.CodeBlock?),
                block.kind.CodeBlock?)
  }

  function Merged(block: Node, low: int, high: int, inserted: seq<Node>): seq<Node>
    requires block.Elem?
  {
    Normalized([], Slice(block.content, 0, Some(low)) + inserted + Slice(block.content, high, None))
  }

  // Both ends inside the same textblock.
  predicate InOneTextblock(children: seq<Node>, start: int, end: int) {
    var first, last := TextblockAt(children, start, 0), TextblockAt(children, end, 0);
    first.Some? && last.Some? && first.value.path == last.value.path
  }

  function SnapSelection(children: seq<Node>, start: int, end: int): Option<(int, int)> {
    if InOneTextblock(children, start, end) then Some((start, end)) else
      var spans := Spans(children, 0);
      var i, j := BlockAt(spans, start, true), BlockAt(spans, end, false);
      if i.None? || j.None? || i.value > j.value then None
      else Some((spans[i.value].0, spans[j.value].1))
  }

  function Between(children: seq<Node>, i: nat, j: nat, nodes: seq<Node>): seq<Node>
    requires i <= j <= |children|
  {
    children[..i] + nodes + children[j..]
  }

  function ReplaceInTextblock(children: seq<Node>, start: int, end: int, text: string): (r: Option<Edit>)
    requires InOneTextblock(children, start, end)
  {
    var found := TextblockAt(children, start, 0).value;
    FoundIsThere(children, start, 0);
    var block := Get(children, found.path);
    var low, high := start - found.start - 1, end - found.start - 1;
    var inserted := Inserted(block, low, high, text);
    var newBlock := block.(content := Merged(block, low, high, inserted));
    Some(Edit(Put(children, found.path, newBlock), ReplaceStep(start, end, inserted)))
  }

  function ReplaceBlocks(children: seq<Node>, start: int, end: int, text: string): Option<Edit> {
    var snapped := SnapSelection(children, start, end);
    if snapped.None? then None else
      var spans := Spans(children, 0);
      var i, j := BlockAt(spans, snapped.value.0, true), BlockAt(spans, snapped.value.1, false);
      if i.None? || j.None? || i.value > j.value then None else
        var nodes := Paragraphs(text);
        Some(Edit(Between(children, i.value, j.value + 1, nodes),
                  ReplaceStep(snapped.value.0, snapped.value.1, nodes)))
  }

  function ReplaceSelection(children: seq<Node>, start: int, end: int, text: string): Option<Edit> {
    if InOneTextblock(children, start, end) then ReplaceInTextblock(children, start, end, text)
    else ReplaceBlocks(children, start, end, text)
  }

  // The number of top-level blocks an insertion at `pos` goes after.
  function InsertIndex(spans: seq<(nat, nat)>, pos: Option<int>): (index: nat)
    ensures index <= |spans|
  {
    if pos.None? || BlockAt(spans, pos.value, false).None? then |spans|
    else BlockAt(spans, pos.value, false).value + 1
  }

  function InsertAfter(children: seq<Node>, pos: Option<int>, text: string): Edit {
    var spans := Spans(children, 0);
    var index := InsertIndex(spans, pos);
    var at := if index > 0 then spans[index - 1].1 else 0;
    var nodes := Paragraphs(text);
    Edit(Between(children, index, index, nodes), ReplaceStep(at, at, nodes))
  }

  // The textblock found is at its path, its start is the position before it,
  // and `pos` lies inside it.
  lemma {:induction false} FoundIsThere(children: seq<Node>, pos: int, base: int)
    ensures var found := TextblockAt(children, pos, base);
            found.Some? ==>
              && ValidPath(children, found.value.path)
              && IsTextblock(Get(children, found.value.path))
              && !IsLeafKind(Get(children, found.value.path).kind)
              && found.value.start == base + OffsetOf(children, found.value.path)
              && found.value.start < pos < found.value.start + NodeSize(Get(children, found.value.path))
    decreases children
  {
    if children != [] {
      hide NodeSize, ValidPath, Get, OffsetOf, ContentSize, IsLeafKind;
      var child, size := children[0], NodeSize(children[0]);
      if base < pos < base + size {
        if IsTextblock(child) {
          FirstChild(children);
          TextblockIsNoLeaf(child, pos, base);
        } else if child.Elem? {
          FoundIsThere(child.content, pos, base + 1);
          var inner := TextblockAt(child.content, pos, base + 1);
          if inner.Some? && !IsLeafNode(child) {
            InnerPath(children, inner.value.path);
          }
        }
      } else {
        FoundIsThere(children[1..], pos, base + size);
        var found := TextblockAt(children[1..], pos, base + size);
        if found.Some? {
          LaterPath(children, found.value.path);
        }
      }
    }
  }

  lemma FirstChild(children: seq<Node>)
    requires children != []
    ensures ValidPath(children, [0]) && Get(children, [0]) == children[0] && OffsetOf(children, [0]) == 0
  {
  }

  lemma TextblockIsNoLeaf(node: Node, pos: int, base: int)
    requires IsTextblock(node) && base < pos < base + NodeSize(node)
    ensures !IsLeafKind(node.kind)
  {
  }

  lemma InnerPath(children: seq<Node>, path: seq<nat>)
    requires children != [] && children[0].Elem? && !IsLeafKind(children[0].kind)
    requires ValidPath(children[0].content, path)
    ensures ValidPath(children, [0] + path)
    ensures Get(children, [0] + path) == Get(children[0].content, path)
    ensures OffsetOf(children, [0] + path) == 1 + OffsetOf(children[0].content, path)
  {
    hide NodeSize;
    assert ([0] + path)[1..] == path && children[..0] == [];
  }

  lemma LaterPath(children: seq<Node>, path: seq<nat>)
    requires children != [] && ValidPath(children[1..], path)
    ensures var later := [path[0] + 1] + path[1..];
            && ValidPath(children, later) && Get(children, later) == Get(children[1..], path)
            && OffsetOf(children, later) == NodeSize(children[0]) + OffsetOf(children[1..], path)
  {
    hide NodeSize;
    var later := [path[0] + 1] + path[1..];
    assert later[1..] == path[1..];
    assert children[..path[0] + 1][1..] == children[1..][..path[0]];
    assert children[..path[0] + 1][0] == children[0];
  }

  // ----- the same edits, computed step by step -----

  method RewriteSelection(children: seq<Node>, start: int, end: int, text: string) returns (edit: Option<Edit>)
    ensures edit == ReplaceSelection(children, start, end, text)
  {
    hide Paragraphs, TextblockAt, Get, Put, NodeSize, OffsetOf, Reworded, InlineNodes, Slice, Normalized, Spans;
    var first := FindTextblock(children, start, 0);
    var last := FindTextblock(children, end, 0);
    if first.Some? && last.Some? && first.value.path == last.value.path {
      FoundIsThere(children, start, 0);
      var block := Get(children, first.value.path);
      var low, high := start - first.value.start - 1, end - first.value.start - 1;
      var selected := SliceInline(block.content, low, Some(high));
      var code := block.kind.CodeBlock?;
      var inserted := InlineNodes(Reworded(InlineText(selected), text, code), code);
      var kept := SliceInline(block.content, 0, Some(low));
      var rest := SliceInline(block.content, high, None);
      var merged := NormalizeInline(kept + inserted + rest);
      return Some(Edit(Put(children, first.value.path, block.(content := merged)),
                       ReplaceStep(start, end, inserted)));
    }
    var snapped := SnapSelection(children, start, end);
    if snapped.None? {
      return None;
    }
    var spans := BlockSpans(children);
    var i := BlockAt(spans, snapped.value.0, true);
    var j := BlockAt(spans, snapped.value.1, false);
    if i.None? || j.None? || i.value > j.value {
      return None;
    }
    var nodes := Paragraphs(text);
    edit := Some(Edit(children[..i.value] + nodes + children[j.value + 1..],
                      ReplaceStep(snapped.value.0, snapped.value.1, nodes)));
  }

  method InsertParagraphs(children: seq<Node>, pos: Option<int>, text: string) returns (edit: Edit)
    ensures edit == InsertAfter(children, pos, text)
  {
    hide Paragraphs, Spans;
    var spans := BlockSpans(children);
    var index := |spans|;
    if pos.Some? && spans != [] {
      var found := BlockAt(spans, pos.value, false);
      if found.Some? {
        index := found.value + 1;
      }
    }
    var at := if index > 0 then spans[index - 1].1 else 0;
    var nodes := Paragraphs(text);
    edit := Edit(children[..index] + nodes + children[index..], ReplaceStep(at, at, nodes));
  }
}
