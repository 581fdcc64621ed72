// Cutting a textblock's children at UTF-16 positions, and putting the pieces
// back into ProseMirror's normal form.
module Inline {
  import opened Wrappers
  import opened Utf16
  import opened Tree
  import Seqs

  // What the schema allows inside a textblock.
  predicate InlineOnly(nodes: seq<Node>) {
    forall i :: 0 <= i < |nodes| ==> nodes[i].Text? || IsLeafNode(nodes[i])
  }

  function Min(a: int, b: int): int {
    if a < b then a else b
  }

  function Max(a: int, b: int): int {
    if a < b then b else a
  }

  // ----- cutting -----

  function CutText(text: string, low: int, high: int): string
    requires low <= high
  {
    IndexAtMonotone(text, low, high);
    text[IndexAt(text, low)..IndexAt(text, high)]
  }

  // The part of `node` between positions `low` and `high` of it.
  function Part(node: Node, low: int, high: int): Node
    requires low <= high
  {
    if node.Text? then node.(text := CutText(node.text, low, high)) else node
  }

  function EndIn(end: Option<int>, size: nat): int {
    if end.None? then size else Min(end.value, size)
  }

  function Back(end: Option<int>, size: nat): Option<int> {
    if end.None? then None else Some(end.value - size)
  }

  // What lies between positions `start` and `end` of the node itself.
  function FirstOf(node: Node, start: int, end: Option<int>): seq<Node> {
    var low, high := Max(start, 0), EndIn(end, NodeSize(node));
    if low < high then [Part(node, low, high)] else []
  }

  // The children between `start` and `end`, both counted from the first child.
  function Slice(children: seq<Node>, start: int, end: Option<int>): seq<Node> {
    if children == [] then [] else
      var size := NodeSize(children[0]);
      FirstOf(children[0], start, end) + Slice(children[1..], start - size, Back(end, size))
  }

  // `out` and what slicing has still to add to it.
  ghost function Joined(out: seq<Node>, children: seq<Node>, start: int, end: Option<int>): seq<Node> {
    out + Slice(children, start, end)
  }

  method SliceInline(children: seq<Node>, start: int, end: Option<int>) returns (out: seq<Node>)
    ensures out == Slice(children, start, end)
  {
    hide Part, NodeSize, FirstOf;
    out := [];
    var pos := 0;
    assert children[0..] == children;
    for i := 0 to |children|
      invariant pos >= 0
      invariant Joined(out, children[i..], start - pos, Back(end, pos)) == Slice(children, start, end)
    {
      hide Slice, Joined;
      var child := children[i];
      var size := NodeSize(child);
      JoinedStep(out, children, i, start - pos, Back(end, pos));
      FirstOfShifted(child, start, end, pos);
      var low := Max(start, pos);
      var high := if end.None? then pos + size else Min(end.value, pos + size);
      if low < high {
        var part := CutChild(child, low - pos, high - pos);
        out := out + [part];
      } else {
        assert out + [] == out;
      }
      pos := pos + size;
    }
  }

  method CutChild(child: Node, low: int, high: int) returns (part: Node)
    requires low <= high
    ensures part == Part(child, low, high)
  {
    if child.Elem? {
      return child;
    }
    var first := Utf16Index(child.text, low);
    var last := Utf16Index(child.text, high);
    IndexAtMonotone(child.text, low, high);
    part := child.(text := child.text[first..last]);
  }

  lemma FirstOfShifted(child: Node, start: int, end: Option<int>, pos: nat)
    ensures var low, high := Max(start, pos), EndIn(Back(end, pos), NodeSize(child)) + pos;
            FirstOf(child, start - pos, Back(end, pos))
            == if low < high then [Part(child, low - pos, high - pos)] else []
  {
    hide Part, NodeSize;
  }

  lemma JoinedStep(out: seq<Node>, children: seq<Node>, i: nat, start: int, end: Option<int>)
    requires i < |children|
    ensures var size := NodeSize(children[i]);
            Joined(out, children[i..], start, end)
            == Joined(out + FirstOf(children[i], start, end), children[i + 1..], start - size, Back(end, size))
  {
    hide NodeSize, FirstOf;
    assert children[i..][1..] == children[i + 1..];
    Seqs.Assoc(out, FirstOf(children[i], start, end),
               Slice(children[i + 1..], start - NodeSize(children[i]), Back(end, NodeSize(children[i]))));
  }

  // Whether position `at` falls between the halves of a surrogate pair.
  predicate SplitsPair(tokens: seq<Token>, at: int) {
    0 < at <= |tokens| && tokens[at - 1].Unit? && IsHigh(tokens[at - 1].code)
  }

  // Where a cut asked for at `at` really falls.
  function Cut(tokens: seq<Token>, at: int): int {
    if at < 0 then 0
    else if at >= |tokens| then |tokens|
    else if SplitsPair(tokens, at) then at + 1
    else at
  }

  lemma {:induction false} EncodeEndsWhole(text: string)
    ensures text != [] ==> !IsHigh(Encode(text)[Utf16Len(text) - 1])
  {
    if text != [] {
      UnitsShape(text[0]);
      EncodeEndsWhole(text[1..]);
      hide Units;
      var n := |Units(text[0])|;
      if text[1..] == [] {
        assert Encode(text) == Units(text[0]);
      } else {
        assert Encode(text)[Utf16Len(text) - 1] == Encode(text[1..])[Utf16Len(text[1..]) - 1];
      }
    }
  }

  lemma CutTextUnits(text: string, low: int, high: int)
    requires 0 <= low <= high <= Utf16Len(text)
    ensures RoundUp(Encode(text), low) <= RoundUp(Encode(text), high) <= Utf16Len(text)
    ensures Encode(CutText(text, low, high))
            == Encode(text)[RoundUp(Encode(text), low)..RoundUp(Encode(text), high)]
  {
    hide Encode, IndexAt;
    IndexAtRoundsUp(text, low);
    IndexAtRoundsUp(text, high);
    IndexAtMonotone(text, low, high);
    var i, j := IndexAt(text, low), IndexAt(text, high);
    EncodeConcat(text[..i], text[i..j]);
    assert text[..i] + text[i..j] == text[..j];
    Seqs.Remainder(Encode(text), RoundUp(Encode(text), low), RoundUp(Encode(text), high), Encode(text[i..j]));
  }

  lemma UnitTokensSlice(text: string, part: string, marks: seq<Mark>, i: nat, j: nat)
    requires i <= j <= Utf16Len(text) && Encode(part) == Encode(text)[i..j]
    ensures UnitTokens(part, marks) == UnitTokens(text, marks)[i..j]
  {
  }

  lemma PartTokens(node: Node, low: int, high: int)
    requires node.Text? || IsLeafNode(node)
    requires 0 <= low < high <= NodeSize(node)
    ensures Cut(NodeTokens(node), low) <= Cut(NodeTokens(node), high)
    ensures NodeTokens(Part(node, low, high))
            == NodeTokens(node)[Cut(NodeTokens(node), low)..Cut(NodeTokens(node), high)]
  {
    if node.Text? {
      CutTextUnits(node.text, low, high);
      CutIsRoundUp(node, low);
      CutIsRoundUp(node, high);
      hide CutText, Cut, RoundUp, Encode;
      UnitTokensSlice(node.text, CutText(node.text, low, high), node.marks,
                      RoundUp(Encode(node.text), low), RoundUp(Encode(node.text), high));
    }
  }

  lemma CutIsRoundUp(node: Node, at: int)
    requires node.Text? && 0 <= at <= NodeSize(node)
    ensures Cut(NodeTokens(node), at) == RoundUp(Encode(node.text), at)
  {
    EncodeEndsWhole(node.text);
    assert at > 0 ==> NodeTokens(node)[at - 1] == Unit(Encode(node.text)[at - 1], node.marks);
  }

  lemma NodeEndsWhole(node: Node)
    requires node.Text? || IsLeafNode(node)
    ensures !SplitsPair(NodeTokens(node), NodeSize(node))
  {
    if node.Text? {
      EncodeEndsWhole(node.text);
    }
  }

  // Cutting a concatenation cuts its parts.
  lemma CutConcat(n: seq<Token>, r: seq<Token>, start: int, end: int)
    requires !SplitsPair(n, |n|) && start <= end
    ensures 0 <= Cut(n + r, start) <= Cut(n + r, end) <= |n + r|
    ensures 0 <= Cut(n, start) <= Cut(n, end) <= |n|
    ensures 0 <= Cut(r, start - |n|) <= Cut(r, end - |n|) <= |r|
    ensures (n + r)[Cut(n + r, start)..Cut(n + r, end)]
            == n[Cut(n, start)..Cut(n, end)] + r[Cut(r, start - |n|)..Cut(r, end - |n|)]
  {
    CutShift(n, r, start);
    CutShift(n, r, end);
    Seqs.SliceOfConcat(n, r, Cut(n, start), Cut(r, start - |n|), Cut(n, end), Cut(r, end - |n|));
  }

  lemma CutShift(n: seq<Token>, r: seq<Token>, at: int)
    requires !SplitsPair(n, |n|)
    ensures Cut(n + r, at) == Cut(n, at) + Cut(r, at - |n|)
    ensures at < |n| ==> Cut(r, at - |n|) == 0
    ensures at >= |n| ==> Cut(n, at) == |n|
  {
    if at > |n| {
      assert at <= |n + r| ==> (n + r)[at - 1] == r[at - |n| - 1];
    } else if at > 0 {
      assert (n + r)[at - 1] == n[at - 1];
    }
  }

  // What a slice takes of its first child.
  lemma FirstPart(node: Node, start: int, end: int)
    requires node.Text? || IsLeafNode(node)
    requires start <= end
    ensures var tokens, low, high := NodeTokens(node), Max(start, 0), Min(end, NodeSize(node));
            && Cut(tokens, start) <= Cut(tokens, end)
            && tokens[Cut(tokens, start)..Cut(tokens, end)]
               == if low < high then NodeTokens(Part(node, low, high)) else []
  {
    var low, high := Max(start, 0), Min(end, NodeSize(node));
    if low < high {
      PartTokens(node, low, high);
    }
    hide NodeTokens, NodeSize, Part;
  }

  lemma FirstOfTokens(node: Node, start: int, end: int)
    requires node.Text? || IsLeafNode(node)
    requires start <= end
    ensures Cut(NodeTokens(node), start) <= Cut(NodeTokens(node), end)
    ensures Tokens(FirstOf(node, start, Some(end)))
            == NodeTokens(node)[Cut(NodeTokens(node), start)..Cut(NodeTokens(node), end)]
  {
    FirstPart(node, start, end);
    var low, high := Max(start, 0), Min(end, NodeSize(node));
    if low < high {
      TokensSingle(Part(node, low, high));
    }
    hide NodeTokens, NodeSize, Part;
  }

  // A slice holds exactly the tokens between the two cuts; each is where it
  // was asked for unless that would split a surrogate pair.
  lemma {:induction false} SliceTokens(children: seq<Node>, start: int, end: int)
    requires InlineOnly(children) && start <= end
    ensures Cut(Tokens(children), start) <= Cut(Tokens(children), end)
    ensures Tokens(Slice(children, start, Some(end)))
            == Tokens(children)[Cut(Tokens(children), start)..Cut(Tokens(children), end)]
    decreases |children|
  {
    hide Cut, FirstOf, NodeTokens, NodeSize, ContentSize, IsLeafNode, Tokens;
    if children != [] {
      var node, size := children[0], NodeSize(children[0]);
      TokensCons(children);
      SliceTokens(children[1..], start - size, end - size);
      NodeEndsWhole(node);
      FirstOfTokens(node, start, end);
      TokensConcat(FirstOf(node, start, Some(end)), Slice(children[1..], start - size, Some(end - size)));
      CutConcat(NodeTokens(node), Tokens(children[1..]), start, end);
    } else {
      NoTokens();
      CutNothing(start);
      CutNothing(end);
    }
  }

  lemma NoTokens()
    ensures Tokens([]) == []
  {
  }

  lemma CutNothing(at: int)
    ensures Cut([], at) == 0
  {
  }

  lemma {:induction false} SliceToEnd(children: seq<Node>, start: int, end: int)
    requires end >= ContentSize(children)
    ensures Slice(children, start, None) == Slice(children, start, Some(end))
    decreases |children|
  {
    if children != [] {
      SliceToEnd(children[1..], start - NodeSize(children[0]), end - NodeSize(children[0]));
      hide NodeSize;
    }
  }

  // ----- normal form -----

  function AddNode(out: seq<Node>, node: Node): seq<Node> {
    if node.Text? && node.text == [] then out
    else if out != [] && Mergeable(out[|out| - 1], node) then
      out[..|out| - 1] + [out[|out| - 1].(text := out[|out| - 1].text + node.text)]
    else out + [node]
  }

  function Normalized(out: seq<Node>, nodes: seq<Node>): seq<Node>
    decreases |nodes|
  {
    if nodes == [] then out else Normalized(AddNode(out, nodes[0]), nodes[1..])
  }

  method NormalizeInline(nodes: seq<Node>) returns (out: seq<Node>)
    ensures out == Normalized([], nodes)
  {
    out := [];
    for i := 0 to |nodes|
      invariant Normalized(out, nodes[i..]) == Normalized([], nodes)
    {
      var node := nodes[i];
      assert nodes[i..][1..] == nodes[i + 1..];
      if node.Text? {
        if node.text == [] {
          continue;
        }
        if out != [] {
          var previous := out[|out| - 1];
          if previous.Text? && previous.marks == node.marks {
            out := out[..|out| - 1] + [previous.(text := previous.text + node.text)];
            continue;
          }
        }
      }
      out := out + [node];
    }
  }

  lemma AddNodeTokens(out: seq<Node>, node: Node)
    ensures Tokens(AddNode(out, node)) == Tokens(out) + NodeTokens(node)
  {
    TokensConcat(out, [node]);
    TokensSingle(node);
    hide Tokens, NodeSize, ContentSize;
    if node.Text? && node.text == [] {
      assert NodeTokens(node) == [];
    } else if out != [] && Mergeable(out[|out| - 1], node) {
      var front, last := out[..|out| - 1], out[|out| - 1];
      var merged := last.(text := last.text + node.text);
      TokensConcat(front, [last]);
      TokensConcat(front, [merged]);
      TokensSingle(last);
      TokensSingle(merged);
      UnitTokensConcat(last.text, node.text, node.marks);
      assert front + [last] == out;
      hide UnitTokens, Encode;
      Seqs.Assoc(Tokens(front), NodeTokens(last), NodeTokens(node));
    }
  }

  // Normalizing moves no position.
  lemma {:induction false} NormalizedTokens(out: seq<Node>, nodes: seq<Node>)
    ensures Tokens(Normalized(out, nodes)) == Tokens(out) + Tokens(nodes)
    decreases |nodes|
  {
    if nodes != [] {
      AddNodeTokens(out, nodes[0]);
      NormalizedTokens(AddNode(out, nodes[0]), nodes[1..]);
      hide AddNode, NodeTokens, NodeSize, ContentSize;
      Seqs.Assoc(Tokens(out), NodeTokens(nodes[0]), Tokens(nodes[1..]));
    }
  }

  lemma AddNodeNormal(out: seq<Node>, node: Node)
    requires Normal(out) && (node.Text? || NormalNode(node))
    ensures Normal(AddNode(out, node))
  {
    if node.Text? && node.text == [] {
    } else if out != [] && Mergeable(out[|out| - 1], node) {
      var front, last := out[..|out| - 1], out[|out| - 1];
      var merged := last.(text := last.text + node.text);
      NormalSlice(out, 0, |out| - 1);
      NormalAt(out, |out| - 1);
      if front != [] {
        NormalAt(out, |out| - 2);
      }
      NormalSingle(merged);
      NormalConcat(front, [merged]);
    } else {
      NormalSingle(node);
      NormalConcat(out, [node]);
    }
  }

  lemma {:induction false} NormalizedIsNormal(out: seq<Node>, nodes: seq<Node>)
    requires Normal(out)
    requires forall i :: 0 <= i < |nodes| ==> nodes[i].Text? || NormalNode(nodes[i])
    ensures Normal(Normalized(out, nodes))
    decreases |nodes|
  {
    if nodes != [] {
      AddNodeNormal(out, nodes[0]);
      hide AddNode, Normal, NormalNode;
      NormalizedIsNormal(AddNode(out, nodes[0]), nodes[1..]);
    }
  }

  // Of all lists with these tokens, normalizing picks the one normal one.
  lemma NormalizedIsTheNormalForm(nodes: seq<Node>, normal: seq<Node>)
    requires forall i :: 0 <= i < |nodes| ==> nodes[i].Text? || NormalNode(nodes[i])
    requires Normal(normal)
    ensures normal == Normalized([], nodes) <==> Tokens(normal) == Tokens(nodes)
  {
    NormalizedTokens([], nodes);
    NormalizedIsNormal([], nodes);
    if Tokens(normal) == Tokens(nodes) {
      TokensDetermineDocument(normal, Normalized([], nodes));
    }
  }

  // What slicing leaves of normal children can be normalized.
  lemma {:induction false} SliceNodes(children: seq<Node>, start: int, end: Option<int>)
    requires Normal(children)
    ensures forall i :: 0 <= i < |Slice(children, start, end)| ==>
              Slice(children, start, end)[i].Text? || NormalNode(Slice(children, start, end)[i])
  {
    if children != [] {
      SliceNodes(children[1..], start - NodeSize(children[0]), Back(end, NodeSize(children[0])));
    }
  }
}
